/** Taking fields one by one off a line, as from a string stream: a field that cannot be read fails
    the stream, and a failed stream sets nothing more. */
module Extraction {
  import opened Text

  /** The words still on a line, or nothing more to be had from it. */
  datatype Source = Failed | Left(words: seq<string>)

  /** A string stays empty where there is nothing to take. */
  function TakeWord(s: Source): (taken: (string, Source))
    ensures taken.0 == "" || (s.Left? && taken.0 in s.words)
  {
    if s.Failed? || s.words == [] then ("", Failed) else (s.words[0], Left(s.words[1..]))
  }

  /** A number is not set where there is nothing to take. One that cannot be read fails but is set,
      and characters that are not part of it are left. */
  datatype Taken<+T> = Unset | Taken(value: T, rest: Source)

  function TakeNumber<T>(s: Source, scan: string -> Scanned<T>): Taken<T> {
    if s.Failed? || s.words == [] then Unset
    else
      match scan(s.words[0])
      case Unreadable(x) => Taken(x, Failed)
      case Scanned(x, used) =>
        var rest := s.words[1..];
        Taken(x, Left(if used < |s.words[0]| then [s.words[0][used..]] + rest else rest))
  }
}
