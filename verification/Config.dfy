/** `.prikk/config`: one `key = value` a line, read strictly, written whole. */
module Config {
  import opened Bytes
  import opened Text

  const KEY := "incoming.max-object-bytes"
  const MAX_BYTES := 65536

  /** One line of the file. */
  datatype Line = Ignored | Pair(key: string, value: string) | Malformed

  function Meaning(raw: string): Line {
    var line := Trim(raw, IsWhitespace);
    if line == "" || line[0] == '#' then Ignored
    else
      var k := Find(line, '=');
      if k == |line| then Malformed else Pair(Trim(line[..k], IsWhitespace), Trim(line[k + 1..], IsWhitespace))
  }

  /** The line is a setting of `key`, with blanks around it, around the sign and at the end. */
  ghost predicate SetsAs(raw: string, key: string, value: string, a: string, b: string, c: string, d: string) {
    && raw == a + (key + b + "=" + c + value) + d
    && Blank(a) && Blank(b) && Blank(c) && Blank(d)
    && Trimmed(key) && Trimmed(value) && '=' !in key && !("#" <= key)
  }

  /** What a line is, in its own characters: each kind has its shape, and no line has two. */
  lemma LineExactly(raw: string) returns (a: string, b: string, c: string, d: string)
    ensures match Meaning(raw)
      case Ignored => Blank(raw) || (Blank(a) && a + "#" <= raw)
      case Malformed => '=' !in raw && Blank(a) && a < raw && !IsWhitespace(raw[|a|]) && raw[|a|] != '#'
      case Pair(key, value) => SetsAs(raw, key, value, a, b, c, d)
  {
    hide IsWhitespace, SetsAs, Trim;
    a, d := TrimExactly(raw, IsWhitespace);
    var line := Trim(raw, IsWhitespace);
    b, c := "", "";
    if line == "" {
    } else if line[0] == '#' {
      assert raw[..|a| + 1] == a + "#";
    } else if Find(line, '=') == |line| {
      BlankHasNo(a);
      BlankHasNo(d);
      assert raw[|a|] == line[0];
    } else {
      b, c, d := PairShape(raw, line, a, d);
    }
  }

  lemma PairShape(raw: string, line: string, a: string, end: string) returns (b: string, c: string, d: string)
    requires raw == a + line + end && Blank(a) && Blank(end)
    requires line != "" && !IsWhitespace(line[0]) && line[0] != '#' && !IsWhitespace(line[|line| - 1])
    requires Find(line, '=') < |line|
    ensures var k := Find(line, '=');
      SetsAs(raw, Trim(line[..k], IsWhitespace), Trim(line[k + 1..], IsWhitespace), a, b, c, d)
  {
    hide IsWhitespace, Trim;
    var k := Find(line, '=');
    var key, value := Trim(line[..k], IsWhitespace), Trim(line[k + 1..], IsWhitespace);
    var a', d';
    a', b := TrimExactly(line[..k], IsWhitespace);
    c, d' := TrimExactly(line[k + 1..], IsWhitespace);
    d := d' + end;
    KeyStarts(line, k, a', key, b);
    assert line[..k] == key + b;
    Assembled(raw, line, k, a, key + b, c + value, d', end);
    assert key + b + "=" + (c + value) == key + b + "=" + c + value;
  }

  lemma Assembled(raw: string, line: string, k: nat, a: string, left: string, right: string, d: string, end: string)
    requires raw == a + line + end && k < |line| && line[k] == '='
    requires line[..k] == left && line[k + 1..] == right + d
    ensures raw == a + (left + "=" + right) + (d + end)
  {
    assert line == left + "=" + (right + d);
    assert line == (left + "=" + right) + d;
  }

  /** No blank at either end. */
  predicate Trimmed(s: string) {
    s != "" ==> !IsWhitespace(s[0]) && !IsWhitespace(s[|s| - 1])
  }

  lemma BlankHasNo(s: string)
    requires Blank(s)
    ensures '=' !in s
  {
  }

  /** Nothing blank comes before the key of a trimmed line, and no sign is in it. */
  lemma KeyStarts(line: string, k: nat, a: string, key: string, b: string)
    requires k < |line| && !IsWhitespace(line[0]) && Blank(a) && Blank(b)
    requires line[..k] == a + key + b && '=' !in line[..k]
    ensures a == "" && '=' !in key && (k > 0 ==> key != "" && key[0] == line[0])
  {
    assert forall i :: 0 <= i < |a| ==> line[..k][i] == a[i];
    assert forall i :: 0 <= i < |key| ==> line[..k][|a| + i] == key[i];
  }

  /** The settings of a list of lines, in order. */
  function Pairs(lines: seq<string>): seq<(string, string)> {
    if lines == [] then []
    else
      var rest := Pairs(lines[..|lines| - 1]);
      var last := Meaning(lines[|lines| - 1]);
      if last.Pair? then rest + [(last.key, last.value)] else rest
  }

  predicate GoodLine(line: Line) {
    line.Ignored? || (line.Pair? && line.key == KEY)
  }

  /** Only blank lines, comments and settings of the one known key, which is set at most once. */
  ghost predicate Strict(lines: seq<string>) {
    (forall i :: 0 <= i < |lines| ==> GoodLine(Meaning(lines[i]))) && |Pairs(lines)| <= 1
  }

  lemma PairsStep(lines: seq<string>, i: nat)
    requires i < |lines|
    ensures var line := Meaning(lines[i]);
      Pairs(lines[..i + 1]) == Pairs(lines[..i]) + (if line.Pair? then [(line.key, line.value)] else [])
  {
    assert lines[..i + 1][..i] == lines[..i] && lines[..i + 1][i] == lines[i];
  }

  lemma {:induction false} PairsGrow(lines: seq<string>, k: nat)
    requires k <= |lines|
    ensures |Pairs(lines[..k])| <= |Pairs(lines)|
    decreases |lines|
  {
    if k < |lines| {
      assert lines[..|lines| - 1][..k] == lines[..k];
      PairsGrow(lines[..|lines| - 1], k);
    } else {
      assert lines[..k] == lines;
    }
  }

  /** The loop of `read_config_lines`: it accepts exactly the strict files. */
  method ReadLines(lines: seq<string>) returns (r: Option<seq<(string, string)>>)
    ensures r.Some? <==> Strict(lines)
    ensures r.Some? ==> r.value == Pairs(lines) && forall p :: p in r.value ==> p.0 == KEY
  {
    hide Meaning;
    var seen: set<string> := {};
    var pairs: seq<(string, string)> := [];
    for i := 0 to |lines|
      invariant forall j :: 0 <= j < i ==> GoodLine(Meaning(lines[j]))
      invariant pairs == Pairs(lines[..i]) && forall p :: p in pairs ==> p.0 == KEY
      invariant if pairs == [] then seen == {} else |pairs| == 1 && seen == {KEY}
    {
      PairsStep(lines, i);
      var line := Meaning(lines[i]);
      if line.Ignored? {
        continue;
      }
      if line.Malformed? || line.key != KEY {
        return None;
      }
      if line.key in seen {
        PairsGrow(lines, i + 1);
        return None;
      }
      seen := seen + {line.key};
      pairs := pairs + [(line.key, line.value)];
    }
    assert lines[..|lines|] == lines;
    r := Some(pairs);
  }

  // ----- reading, setting and resolving -----

  /** `parse_incoming_max_object_bytes` */
  function ParseValue(value: string): (r: Option<nat>)
    ensures r.Some? ==> 1 <= r.value <= U64_MAX
  {
    var n := ParseU64(value);
    if n.None? || n.value == 0 then None else n
  }

  datatype Read = Absent | Value(bytes: nat) | Refused

  /** `read_incoming_max_object_bytes` of a repository whose config file holds `text`, if there is one. */
  ghost function ReadSetting(text: Option<string>): Read {
    if text.None? then Absent
    else if Utf8Size(text.value) > MAX_BYTES || !Strict(Lines(text.value)) then Refused
    else
      var pairs := Pairs(Lines(text.value));
      if pairs == [] then Absent
      else if ParseValue(pairs[0].1).None? then Refused else Value(ParseValue(pairs[0].1).value)
  }

  class Repository {
    var config: Option<string>

    constructor (config: Option<string>)
      ensures this.config == config
    {
      this.config := config;
    }

    /** `run_set`: nothing reaches the file unless the value is good. */
    method RunSet(key: string, value: string) returns (ok: bool)
      modifies this
      ensures ok <==> key == KEY && ParseValue(value).Some?
      ensures config == if ok then Some(Setting(value)) else old(config)
    {
      if key != KEY || ParseValue(value).None? {
        return false;
      }
      config := Some(Setting(value));
      ok := true;
    }

    /** `run_unset` */
    method RunUnset(key: string) returns (ok: bool)
      modifies this
      ensures ok <==> key == KEY
      ensures config == if ok then None else old(config)
      ensures ok ==> ReadSetting(config) == Absent
    {
      if key != KEY {
        return false;
      }
      config := None;
      ok := true;
    }

    /** `read_incoming_max_object_bytes` */
    method ReadIncoming() returns (r: Read)
      ensures r == ReadSetting(config)
    {
      if config.None? {
        return Absent;
      }
      if Utf8Size(config.value) > MAX_BYTES {
        return Refused;
      }
      var pairs := ReadLines(Lines(config.value));
      if pairs.None? {
        return Refused;
      }
      if pairs.value == [] {
        return Absent;
      }
      var n := ParseValue(pairs.value[0].1);
      r := if n.None? then Refused else Value(n.value);
    }
  }

  function Setting(value: string): string {
    KEY + " = " + value + "\n"
  }

  /**
   Set then read: the same number comes back exactly when the written file fits the reader's bound. A
   number may be written with any number of leading zeros, so an accepted value can overflow the file.
   */
  lemma SetThenRead(value: string)
    requires ParseValue(value).Some?
    ensures ReadSetting(Some(Setting(value)))
         == if |value| <= MAX_BYTES - 29 then Value(ParseValue(value).value) else Refused
  {
    var line := KEY + " = " + value;
    forall i | 0 <= i < |value| ensures IsDigit(value[i]) || value[i] == '+' {
      ParsedChars(value, i);
    }
    SettingSize(value);
    SettingLines(value);
    SettingMeaning(value);
    assert Lines(Setting(value)) == [line];
    assert [line][..0] == [];
    assert Pairs([line]) == [(KEY, value)];
  }

  ghost predicate NumberText(value: string) {
    value != "" && forall i :: 0 <= i < |value| ==> IsDigit(value[i]) || value[i] == '+'
  }

  lemma SettingSize(value: string)
    requires NumberText(value)
    ensures Utf8Size(Setting(value)) == |value| + 29
  {
    assert |KEY| == 25 && |Setting(value)| == |value| + 29;
    forall i | 0 <= i < |Setting(value)| ensures Setting(value)[i] < '\U{80}' {
      if 28 <= i < 28 + |value| { assert Setting(value)[i] == value[i - 28]; }
    }
    AsciiSize(Setting(value));
  }

  lemma SettingLines(value: string)
    requires NumberText(value)
    ensures Lines(Setting(value)) == [KEY + " = " + value]
  {
    var text, line := Setting(value), KEY + " = " + value;
    assert text[|line|] == '\n' && text[..|line|] == line && text[|line| + 1..] == "";
    forall i | 0 <= i < |line| ensures text[i] != '\n' {
      if i >= 28 { assert text[i] == value[i - 28]; }
    }
    assert Find(text, '\n') == |line|;
  }

  lemma SettingMeaning(value: string)
    requires NumberText(value)
    ensures Meaning(KEY + " = " + value) == Pair(KEY, value)
  {
    var line := KEY + " = " + value;
    assert line[0] == 'i' && line[|line| - 1] == value[|value| - 1];
    assert Trim(line, IsWhitespace) == line;
    forall i | 0 <= i < 26 ensures line[i] != '=' {
    }
    assert line[26] == '=' && Find(line, '=') == 26;
    assert line[..26] == KEY + " " && line[27..] == " " + value;
    TrimSpaces(value);
  }

  lemma TrimSpaces(value: string)
    requires NumberText(value)
    ensures Trim(KEY + " ", IsWhitespace) == KEY && Trim(" " + value, IsWhitespace) == value
  {
    assert (KEY + " ")[..25] == KEY && TrimStart(KEY + " ", IsWhitespace) == KEY + " ";
    assert TrimEnd(KEY, IsWhitespace) == KEY;
    assert (" " + value)[1..] == value;
    assert TrimStart(value, IsWhitespace) == value && TrimEnd(value, IsWhitespace) == value;
  }

  function Zeros(n: nat): (s: string)
    ensures |s| == n && forall i :: 0 <= i < n ==> s[i] == '0'
  {
    seq(n, _ => '0')
  }

  lemma {:induction false} DecimalZeros(n: nat)
    ensures Decimal(Zeros(n)) == 0
  {
    if n > 0 {
      DecimalZeros(n - 1);
      assert Zeros(n)[..n - 1] == Zeros(n - 1);
    }
  }

  /** An accepted set whose file no command can read back. */
  lemma OverlongSetting() returns (value: string)
    ensures ParseValue(value) == Some(1) && ReadSetting(Some(Setting(value))) == Refused
  {
    value := Zeros(MAX_BYTES) + "1";
    assert value[0] == '0' && Digits(value) == value;
    forall i | 0 <= i < |value| ensures IsDigit(value[i]) {
      if i < MAX_BYTES { assert value[i] == Zeros(MAX_BYTES)[i]; }
    }
    assert value[..|value| - 1] == Zeros(MAX_BYTES);
    DecimalZeros(MAX_BYTES);
    SetThenRead(value);
  }

  /** `resolve_max_object_bytes`: the flag, else the file when a repository is open, else the default. */
  method Resolve(flag: Option<nat>, repository: Repository?, default: nat) returns (r: Option<nat>)
    ensures flag.Some? ==> r == flag
    ensures flag.None? && repository == null ==> r == Some(default)
    ensures flag.None? && repository != null ==>
              r == match ReadSetting(repository.config)
                   case Absent => Some(default)
                   case Value(bytes) => Some(bytes)
                   case Refused => None
  {
    if flag.Some? {
      return flag;
    }
    if repository != null {
      var setting := repository.ReadIncoming();
      match setting {
        case Absent =>
        case Value(bytes) => return Some(bytes);
        case Refused => return None;
      }
    }
    r := Some(default);
  }
}
