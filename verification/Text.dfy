/** Text as Rust's standard library reads it: white space, trimming, lines, and unsigned integers. */
module Text {
  import opened Bytes

  /** The Unicode `White_Space` property, which `trim` removes. */
  predicate IsWhitespace(c: char) {
    || '\U{9}' <= c <= '\U{D}' || c == ' ' || c == '\U{85}' || c == '\U{A0}' || c == '\U{1680}'
    || '\U{2000}' <= c <= '\U{200A}' || c == '\U{2028}' || c == '\U{2029}' || c == '\U{202F}'
    || c == '\U{205F}' || c == '\U{3000}'
  }

  predicate Blank(s: string) {
    forall i :: 0 <= i < |s| ==> IsWhitespace(s[i])
  }

  /** Trimming text of any kind of character, given which of them are blank. */
  function TrimStart<T>(s: seq<T>, blank: T -> bool): seq<T> {
    if s != [] && blank(s[0]) then TrimStart(s[1..], blank) else s
  }

  function TrimEnd<T>(s: seq<T>, blank: T -> bool): seq<T> {
    if s != [] && blank(s[|s| - 1]) then TrimEnd(s[..|s| - 1], blank) else s
  }

  function Trim<T>(s: seq<T>, blank: T -> bool): seq<T> {
    TrimEnd(TrimStart(s, blank), blank)
  }

  /** What trimming leaves: the text without the blanks around it, which is nothing exactly if all are blanks. */
  lemma {:induction false} TrimExactly<T>(s: seq<T>, blank: T -> bool) returns (a: seq<T>, b: seq<T>)
    ensures s == a + Trim(s, blank) + b
    ensures (forall i :: 0 <= i < |a| ==> blank(a[i])) && (forall i :: 0 <= i < |b| ==> blank(b[i]))
    ensures var t := Trim(s, blank);
      && (t == [] <==> forall i :: 0 <= i < |s| ==> blank(s[i]))
      && (t != [] ==> !blank(t[0]) && !blank(t[|t| - 1]))
  {
    a := StartTrimmed(s, blank);
    b := EndTrimmed(TrimStart(s, blank), blank);
    var t := Trim(s, blank);
    if t == [] {
      assert s == a + b;
    } else {
      assert s[|a|] == t[0];
    }
  }

  lemma {:induction false} StartTrimmed<T>(s: seq<T>, blank: T -> bool) returns (a: seq<T>)
    ensures s == a + TrimStart(s, blank) && forall i :: 0 <= i < |a| ==> blank(a[i])
    ensures TrimStart(s, blank) != [] ==> !blank(TrimStart(s, blank)[0])
  {
    if s != [] && blank(s[0]) {
      a := StartTrimmed(s[1..], blank);
      a := [s[0]] + a;
    } else {
      a := [];
    }
  }

  lemma {:induction false} EndTrimmed<T>(s: seq<T>, blank: T -> bool) returns (b: seq<T>)
    ensures s == TrimEnd(s, blank) + b && forall i :: 0 <= i < |b| ==> blank(b[i])
    ensures var t := TrimEnd(s, blank); t != [] ==> !blank(t[|t| - 1]) && t[0] == s[0]
  {
    if s != [] && blank(s[|s| - 1]) {
      b := EndTrimmed(s[..|s| - 1], blank);
      b := b + [s[|s| - 1]];
    } else {
      b := [];
    }
  }

  /** The first position of `c` in `s`, or the length of `s`. */
  function Find(s: string, c: char): (k: nat)
    ensures k <= |s| && (k < |s| ==> s[k] == c) && forall i :: 0 <= i < k ==> s[i] != c
  {
    if s == "" || s[0] == c then 0 else 1 + Find(s[1..], c)
  }

  /**
   `lines`: a final line break ends the last line and starts none. A carriage return before a line break is
   left to the trimming of the line.
   */
  function Lines(text: string): seq<string> {
    if text == "" then []
    else
      var k := Find(text, '\n');
      if k == |text| then [text] else [text[..k]] + Lines(text[k + 1..])
  }

  /** The lines, each ended by a line break. */
  function Joined(lines: seq<string>): string {
    if lines == [] then "" else lines[0] + "\n" + Joined(lines[1..])
  }

  /** The text, with a line break at its end. */
  function Ended(text: string): string {
    if text == "" || text[|text| - 1] == '\n' then text else text + "\n"
  }

  /** No line holds a line break, and put together they are the text. */
  lemma {:induction false} LinesExactly(text: string)
    ensures forall i :: 0 <= i < |Lines(text)| ==> '\n' !in Lines(text)[i]
    ensures Joined(Lines(text)) == Ended(text)
    decreases |text|
  {
    hide Ended;
    var k := Find(text, '\n');
    if text == "" || k == |text| {
      OneLine(text);
    } else {
      hide Joined;
      var front, rest := text[..k], text[k + 1..];
      LinesExactly(rest);
      assert Lines(text) == [front] + Lines(rest);
      JoinedMore(front, Lines(rest));
      assert text == front + "\n" + rest;
      EndedMore(front, rest);
    }
  }

  lemma OneLine(text: string)
    requires '\n' !in text
    ensures text != "" ==> Joined([text]) == Ended(text)
    ensures Joined([]) == Ended("")
  {
    assert [text][1..] == [];
  }

  lemma JoinedMore(line: string, lines: seq<string>)
    ensures Joined([line] + lines) == line + "\n" + Joined(lines)
  {
    assert ([line] + lines)[1..] == lines;
  }

  lemma EndedMore(front: string, rest: string)
    ensures Ended(front + "\n" + rest) == front + "\n" + Ended(rest)
  {
    var text := front + "\n" + rest;
    if rest == "" {
      assert text[|text| - 1] == '\n';
    } else {
      assert text[|text| - 1] == rest[|rest| - 1];
      assert front + "\n" + (rest + "\n") == text + "\n";
    }
  }

  /** The number of bytes of a text in UTF-8. */
  function Utf8Size(text: string): nat {
    if text == "" then 0 else Utf8Size(text[..|text| - 1]) + CharSize(text[|text| - 1])
  }

  function CharSize(c: char): nat {
    if c < '\U{80}' then 1 else if c < '\U{800}' then 2 else if c < '\U{10000}' then 3 else 4
  }

  predicate IsDigit(c: char) {
    '0' <= c <= '9'
  }

  function Decimal(digits: string): nat
    requires forall i :: 0 <= i < |digits| ==> IsDigit(digits[i])
  {
    if digits == "" then 0
    else 10 * Decimal(digits[..|digits| - 1]) + DigitValue(digits[|digits| - 1])
  }

  function DigitValue(c: char): nat
    requires IsDigit(c)
  {
    c as int - '0' as int
  }

  predicate AllDigits(s: string) {
    forall i :: 0 <= i < |s| ==> IsDigit(s[i])
  }

  function Pow10(k: nat): nat {
    if k == 0 then 1 else 10 * Pow10(k - 1)
  }

  /** Each digit counts ten times as much as the one after it. */
  lemma {:induction false} DecimalSplit(a: string, b: string)
    requires AllDigits(a) && AllDigits(b)
    ensures AllDigits(a + b) && Decimal(a + b) == Decimal(a) * Pow10(|b|) + Decimal(b)
    decreases |b|
  {
    if b == "" {
      assert a + b == a;
    } else {
      var front, c := b[..|b| - 1], b[|b| - 1];
      DecimalSplit(a, front);
      assert (a + b)[..|a + b| - 1] == a + front;
      assert Decimal(a) * (10 * Pow10(|front|)) == 10 * (Decimal(a) * Pow10(|front|));
    }
  }

  lemma DecimalDigit(v: nat)
    requires v < 10
    ensures var c := "0123456789"[v]; IsDigit(c) && Decimal([c]) == v
  {
    assert ["0123456789"[v]][..0] == [];
  }

  /** A number is read exactly from its digits, with or without a plus sign, if it fits 64 bits. */
  lemma ParseExactly(s: string, n: nat)
    ensures ParseU64(s) == Some(n) <==>
              exists digits :: digits != "" && AllDigits(digits) && s in {digits, "+" + digits}
                               && Decimal(digits) == n <= U64_MAX
  {
    if ParseU64(s) == Some(n) {
      var digits := Digits(s);
      assert AllDigits(digits);
      if s != digits { assert s == "+" + digits; }
    }
    if digits :| digits != "" && AllDigits(digits) && s in {digits, "+" + digits} && Decimal(digits) == n <= U64_MAX {
      assert IsDigit(digits[0]);
      assert Digits(s) == digits;
    }
  }

  function Digits(s: string): string {
    if s != "" && s[0] == '+' then s[1..] else s
  }

  /** `str::parse::<u64>`: an optional plus sign, then digits, in range. */
  function ParseU64(s: string): (r: Option<nat>)
    ensures r.Some? ==> r.value <= U64_MAX
  {
    var digits := Digits(s);
    if digits == "" || exists i :: 0 <= i < |digits| && !IsDigit(digits[i]) then None
    else if Decimal(digits) > U64_MAX then None
    else Some(Decimal(digits))
  }

  /** A number's text holds only its digits and at most a sign. */
  lemma ParsedChars(s: string, i: nat)
    requires ParseU64(s).Some? && i < |s|
    ensures s != "" && (IsDigit(s[i]) || s[i] == '+')
  {
    var digits := Digits(s);
    if s[0] == '+' {
      if i > 0 { assert s[i] == digits[i - 1]; }
    }
  }

  lemma {:induction false} AsciiSize(text: string)
    requires forall i :: 0 <= i < |text| ==> text[i] < '\U{80}'
    ensures Utf8Size(text) == |text|
    decreases |text|
  {
    if text != "" {
      AsciiSize(text[..|text| - 1]);
    }
  }
}
