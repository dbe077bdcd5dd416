/** Lines, words and whole numbers as text. */
module Text {
  predicate IsSpace(c: char) {
    c == ' ' || c == '\t' || c == '\n' || c == '\r' || c == '\U{0B}' || c == '\U{0C}'
  }

  /** Something that can be printed and read back as one field. */
  ghost predicate IsWord(w: string) { w != "" && forall c :: c in w ==> !IsSpace(c) }

  // ----- words

  /** Where the first word of a line that begins with one ends. */
  function WordEnd(line: string): (k: nat)
    ensures k <= |line|
    ensures line != "" && !IsSpace(line[0]) ==> k > 0
  {
    if line == "" || IsSpace(line[0]) then 0 else 1 + WordEnd(line[1..])
  }

  /** The words of a line, whatever white space separates them. */
  function Words(line: string): seq<string>
    decreases |line|
  {
    if line == "" then []
    else if IsSpace(line[0]) then Words(line[1..])
    else [line[..WordEnd(line)]] + Words(line[WordEnd(line)..])
  }

  function Join(words: seq<string>): string {
    if words == [] then "" else if |words| == 1 then words[0] else words[0] + " " + Join(words[1..])
  }

  lemma {:induction false} WordEndsAtSpace(w: string, rest: string)
    requires (forall c :: c in w ==> !IsSpace(c)) && (rest == "" || IsSpace(rest[0]))
    ensures WordEnd(w + rest) == |w|
  {
    if w == "" {
      assert w + rest == rest;
    } else {
      assert (w + rest)[1..] == w[1..] + rest;
      WordEndsAtSpace(w[1..], rest);
    }
  }

  function NonEmpty(words: seq<string>): seq<string> {
    if words == [] then [] else (if words[0] == "" then [] else [words[0]]) + NonEmpty(words[1..])
  }

  /** Words joined by single spaces are the words that are read back, but for empty ones. */
  lemma {:induction false} WordsRoundTrip(words: seq<string>)
    requires forall w :: w in words ==> w == "" || IsWord(w)
    ensures Words(Join(words)) == NonEmpty(words)
  {
    if words != [] {
      var w, line := words[0], Join(words);
      var rest := if |words| == 1 then "" else " " + Join(words[1..]);
      assert line == w + rest;
      FirstWord(w, rest);
      if |words| > 1 {
        assert rest[1..] == Join(words[1..]);
        WordsRoundTrip(words[1..]);
      }
    }
  }

  lemma FirstWord(w: string, rest: string)
    requires (w == "" || IsWord(w)) && (rest == "" || IsSpace(rest[0]))
    ensures Words(w + rest) == (if w == "" then [] else [w]) + Words(rest)
  {
    var line := w + rest;
    if w == "" {
      assert line == rest;
    } else {
      assert w[0] in w;
      WordEndsAtSpace(w, rest);
      assert line[..|w|] == w && line[|w|..] == rest;
    }
  }

  lemma {:induction false} WordIsWord(line: string)
    ensures forall c :: c in line[..WordEnd(line)] ==> !IsSpace(c)
  {
    if line != "" && !IsSpace(line[0]) {
      WordIsWord(line[1..]);
      assert line[..WordEnd(line)] == [line[0]] + line[1..][..WordEnd(line[1..])];
    }
  }

  lemma {:induction false} WordsAreWords(line: string)
    ensures forall w :: w in Words(line) ==> IsWord(w)
    decreases |line|
  {
    if line != "" {
      if IsSpace(line[0]) {
        WordsAreWords(line[1..]);
      } else {
        WordIsWord(line);
        WordsAreWords(line[WordEnd(line)..]);
      }
    }
  }

  // ----- lines

  function LineEnd(text: string): (k: nat)
    ensures k <= |text|
  {
    if text == "" || text[0] == '\n' then 0 else 1 + LineEnd(text[1..])
  }

  /** The lines of a file; the last may lack its newline. */
  function Lines(text: string): seq<string>
    decreases |text|
  {
    if text == "" then []
    else
      var k := LineEnd(text);
      [text[..k]] + if k < |text| then Lines(text[k + 1..]) else []
  }

  function Unlines(lines: seq<string>): string {
    if lines == [] then "" else lines[0] + "\n" + Unlines(lines[1..])
  }

  lemma {:induction false} LineEndsAtNewline(line: string, rest: string)
    requires '\n' !in line
    ensures LineEnd(line + "\n" + rest) == |line|
  {
    if line != "" {
      assert (line + "\n" + rest)[1..] == line[1..] + "\n" + rest;
      assert line[0] in line;
      LineEndsAtNewline(line[1..], rest);
    }
  }

  lemma {:induction false} LinesRoundTrip(lines: seq<string>)
    requires forall line :: line in lines ==> '\n' !in line
    ensures Lines(Unlines(lines)) == lines
  {
    if lines != [] {
      var line, rest := lines[0], Unlines(lines[1..]);
      var text := line + "\n" + rest;
      LineEndsAtNewline(line, rest);
      assert text[..|line|] == line && text[|line| + 1..] == rest;
      LinesRoundTrip(lines[1..]);
    }
  }

  lemma {:induction false} UnlinesAppend(lines: seq<string>, line: string)
    ensures Unlines(lines + [line]) == Unlines(lines) + line + "\n"
  {
    if lines == [] {
      assert lines + [line] == [line];
      assert Unlines([line]) == line + "\n" + Unlines([]);
    } else {
      assert (lines + [line])[1..] == lines[1..] + [line];
      UnlinesAppend(lines[1..], line);
    }
  }

  lemma {:induction false} JoinStaysOnItsLine(words: seq<string>)
    requires forall w :: w in words ==> w == "" || IsWord(w)
    ensures '\n' !in Join(words)
  {
    if words != [] {
      assert words[0] in words;
      if |words| > 1 { JoinStaysOnItsLine(words[1..]); }
    }
  }

  // ----- digits

  const DIGITS := "0123456789"

  predicate IsDigit(c: char) { '0' <= c <= '9' }

  ghost predicate AllDigits(s: string) { forall c :: c in s ==> IsDigit(c) }

  function Digit(c: char): nat { if IsDigit(c) then (c as int) - ('0' as int) else 0 }

  /** The number a string of digits stands for. */
  function Value(digits: string): nat {
    if digits == "" then 0 else 10 * Value(digits[..|digits| - 1]) + Digit(digits[|digits| - 1])
  }

  /** Where the digits that a text begins with end. */
  function DigitEnd(s: string): (k: nat)
    ensures k <= |s|
  {
    if s == "" || !IsDigit(s[0]) then 0 else 1 + DigitEnd(s[1..])
  }

  lemma {:induction false} DigitsEndAt(digits: string, rest: string)
    requires AllDigits(digits) && (rest == "" || !IsDigit(rest[0]))
    ensures DigitEnd(digits + rest) == |digits|
  {
    if digits == "" {
      assert digits + rest == rest;
    } else {
      assert (digits + rest)[1..] == digits[1..] + rest;
      assert digits[0] in digits;
      DigitsEndAt(digits[1..], rest);
    }
  }

  lemma DigitsAreWord(digits: string)
    requires AllDigits(digits) && digits != ""
    ensures IsWord(digits) && digits[0] != '-' && digits[0] != '+'
  {
    assert digits[0] in digits;
  }

  // ----- whole numbers

  function PrintNat(n: nat): (s: string)
    ensures s != ""
  {
    if n < 10 then [DIGITS[n]] else PrintNat(n / 10) + [DIGITS[n % 10]]
  }

  function PrintInt(n: int): string { if n < 0 then "-" + PrintNat(-n) else PrintNat(n) }

  /** What extracting a number from the beginning of a text gives: the characters taken, or a failure,
      which still sets the number. */
  datatype Scanned<+T> = Scanned(value: T, used: nat) | Unreadable(value: T)

  function SignEnd(s: string): (k: nat)
    ensures k <= |s|
  {
    if s != "" && (s[0] == '-' || s[0] == '+') then 1 else 0
  }

  predicate IsMinus(s: string) { s != "" && s[0] == '-' }

  function SignedInt(negative: bool, n: int): int { if negative then -n else n }

  /** A sign, if there is one, and digits; whatever follows them is left. */
  function ScanInt(s: string): Scanned<int> {
    var sign, count := SignEnd(s), DigitEnd(s[SignEnd(s)..]);
    var magnitude := Value(s[sign..][..count]);
    if count == 0 then Unreadable(0) else Scanned(SignedInt(IsMinus(s), magnitude), sign + count)
  }

  lemma DigitReadsBack(d: nat)
    requires d < 10
    ensures IsDigit(DIGITS[d]) && Digit(DIGITS[d]) == d
  {}

  lemma {:induction false} NatRoundTrip(n: nat)
    ensures Value(PrintNat(n)) == n && AllDigits(PrintNat(n))
  {
    var s := PrintNat(n);
    DigitReadsBack(n % 10);
    if n >= 10 {
      NatRoundTrip(n / 10);
      assert s[..|s| - 1] == PrintNat(n / 10);
    }
  }

  lemma MinusIsWord(s: string)
    requires IsWord(s)
    ensures IsWord("-" + s) && ("-" + s)[0] == '-' && ("-" + s)[1..] == s
  {
    forall c | c in "-" + s ensures !IsSpace(c) {
      if c !in s { assert c in "-"; }
    }
  }

  lemma SignedScan(sign: string, digits: string)
    requires AllDigits(digits) && digits != "" && (sign == "" || sign == "-" || sign == "+")
    ensures ScanInt(sign + digits) == Scanned(SignedInt(sign == "-", Value(digits)), |sign + digits|)
  {
    DigitsAreWord(digits);
    DigitsEndAt(digits, "");
    assert digits + "" == digits && (sign + digits)[|sign|..] == digits;
    assert digits[..|digits|] == digits;
  }

  lemma IntRoundTrip(n: int)
    ensures ScanInt(PrintInt(n)) == Scanned(n, |PrintInt(n)|) && IsWord(PrintInt(n))
  {
    var digits := PrintNat(if n < 0 then -n else n);
    NatRoundTrip(if n < 0 then -n else n);
    DigitsAreWord(digits);
    MinusIsWord(digits);
    SignedScan(if n < 0 then "-" else "", digits);
    assert "" + digits == digits;
  }
}
