/** The `.env` loader: reads `KEY=VALUE` lines into the process environment
    once, never overriding a value that is already set, and the typed getters
    over that environment. The environment is a map from name to value; the
    file system is the `EnvFile` outcome passed to `Load`. */
module EnvLoader {
  import opened Wrappers
  import opened Strings
  import opened Sequences

  // ---------------------------------------------------------------- line syntax

  predicate IsKeyStart(c: char) { ('A' <= c <= 'Z') || c == '_' }

  predicate IsKeyChar(c: char) { IsKeyStart(c) || IsDigit(c) }

  /** `[A-Z_][A-Z0-9_]*` */
  predicate ValidKey(k: string)
  {
    |k| > 0 && IsKeyStart(k[0]) && forall i :: 0 <= i < |k| ==> IsKeyChar(k[i])
  }

  /** What `.*` matches: no line terminator. */
  predicate NoTerminator(v: string)
  {
    forall i :: 0 <= i < |v| ==> !IsLineTerminator(v[i])
  }

  /** The index of the first occurrence of `c`, if any. */
  function IndexOf(s: string, c: char): (r: Option<nat>)
    ensures r.Some? ==> r.value < |s| && s[r.value] == c && c !in s[..r.value]
    ensures r.None? ==> c !in s
  {
    if s == [] then None
    else if s[0] == c then Some(0)
    else match IndexOf(s[1..], c)
      case None => None
      case Some(j) =>
        assert s[..j + 1] == [s[0]] + s[1..][..j];
        Some(j + 1)
  }

  /** `line.match(/^([A-Z_][A-Z0-9_]*)=(.*)$/)`: since a key has no `=`, the
      key is everything before the first `=`, and the rest of the line is the
      value. */
  function ParseLine(line: string): (r: Option<(string, string)>)
    ensures r.Some? ==> line == r.value.0 + "=" + r.value.1
    ensures r.Some? ==> ValidKey(r.value.0) && '=' !in r.value.0 && NoTerminator(r.value.1)
  {
    match IndexOf(line, '=')
    case None => None
    case Some(eq) =>
      var key := line[..eq];
      var value := line[eq + 1..];
      assert line == key + "=" + value;
      if ValidKey(key) && NoTerminator(value) then Some((key, value)) else None
  }

  /** The first `c` of a string is the one after a prefix without `c`. */
  lemma {:induction false} IndexAfterPrefix(pre: string, c: char, rest: string)
    requires c !in pre
    ensures IndexOf(pre + [c] + rest, c) == Some(|pre|)
  {
    if pre != [] {
      IndexAfterPrefix(pre[1..], c, rest);
      assert (pre + [c] + rest)[1..] == pre[1..] + [c] + rest;
    }
  }

  /** A line matches exactly when it is a valid key, `=`, and a value without
      line terminators; the match yields that key and value. */
  lemma ParseLineMatches(line: string, k: string, v: string)
    ensures ParseLine(line) == Some((k, v)) <==> line == k + "=" + v && ValidKey(k) && NoTerminator(v)
  {
    if line == k + "=" + v && ValidKey(k) && NoTerminator(v) {
      assert '=' !in k;
      IndexAfterPrefix(k, '=', v);
      assert line[..|k|] == k && line[|k| + 1..] == v;
    }
    if ParseLine(line) == Some((k, v)) {
      var eq := IndexOf(line, '=').value;
      assert line == line[..eq] + "=" + line[eq + 1..];
    }
  }

  /** A line saved with a carriage return before its newline never matches,
      since `.` does not match `\r`. */
  lemma CarriageReturnLineIgnored(line: string)
    requires |line| > 0 && line[|line| - 1] == '\r'
    ensures ParseLine(line) == None
  {
    match IndexOf(line, '=')
    case None =>
    case Some(eq) =>
      var value := line[eq + 1..];
      assert value[|value| - 1] == '\r';
  }

  /** The lines skipped before matching: blank or, once trimmed, a comment. */
  predicate Skipped(line: string)
  {
    var t := Trim(line);
    t == [] || t[0] == '#'
  }

  /** A skipped line starts with a space or a `#`. */
  lemma SkippedStart(line: string)
    requires Skipped(line)
    ensures line == [] || IsJsSpace(line[0]) || line[0] == '#'
  {
    TrimEmptyIffAllSpace(line);
    if line != [] && !IsJsSpace(line[0]) {
      assert TrimStart(line) == line;
    }
  }

  /** A skipped line would not have matched anyway: neither a space nor a
      `#` can start a key. */
  lemma SkippedLinesNeverMatch(line: string)
    requires Skipped(line)
    ensures ParseLine(line) == None
  {
    SkippedStart(line);
  }

  /** One line of the file: a matching line sets its key to the trimmed value
      unless the key already holds a non-empty value. */
  function ApplyLine(env: map<string, string>, line: string): (r: map<string, string>)
    ensures r == env || (ParseLine(line).Some? && r == env[ParseLine(line).value.0 := Trim(ParseLine(line).value.1)])
    ensures forall k :: k in env && env[k] != "" ==> k in r && r[k] == env[k]
  {
    if Skipped(line) then env
    else match ParseLine(line)
      case None => env
      case Some((k, v)) => if k in env && env[k] != "" then env else env[k := Trim(v)]
  }

  /** The lines applied in file order. */
  function ApplyLines(env: map<string, string>, lines: seq<string>): (r: map<string, string>)
    ensures env.Keys <= r.Keys
    ensures forall k :: k in env && env[k] != "" ==> r[k] == env[k]
  {
    if lines == [] then env else ApplyLine(ApplyLines(env, lines[..|lines| - 1]), lines[|lines| - 1])
  }

  /** One more line applied on top of the lines before it. */
  lemma ApplyLinesStep(env: map<string, string>, lines: seq<string>, i: nat)
    requires i < |lines|
    ensures ApplyLines(env, lines[..i + 1]) == ApplyLine(ApplyLines(env, lines[..i]), lines[i])
  {
    assert lines[..i + 1][..i] == lines[..i];
  }

  /** A non-empty value already in the environment is never overwritten, and
      every name the file sets comes from a matching line. */
  lemma {:induction false} LoadKeepsSetValues(env: map<string, string>, lines: seq<string>, k: string)
    ensures k in env && env[k] != "" ==> k in ApplyLines(env, lines) && ApplyLines(env, lines)[k] == env[k]
    ensures k in ApplyLines(env, lines) && k !in env ==>
      exists i, v :: 0 <= i < |lines| && ParseLine(lines[i]) == Some((k, v))
    ensures forall j :: j in env ==> j in ApplyLines(env, lines)
  {
    if lines != [] {
      var init := lines[..|lines| - 1];
      var last := lines[|lines| - 1];
      LoadKeepsSetValues(env, init, k);
      var before := ApplyLines(env, init);
      if k in ApplyLines(env, lines) && k !in env && k !in before {
        ApplyLineNewKey(before, last, k);
        var v := ParseLine(last).value.1;
        assert ParseLine(lines[|lines| - 1]) == Some((k, v));
      } else if k in ApplyLines(env, lines) && k !in env {
        var i, v :| 0 <= i < |init| && ParseLine(init[i]) == Some((k, v));
        assert lines[i] == init[i];
      }
    }
  }

  /** A key that one line adds is the key of that line. */
  lemma ApplyLineNewKey(env: map<string, string>, line: string, k: string)
    requires k in ApplyLine(env, line) && k !in env
    ensures ParseLine(line).Some? && ParseLine(line).value.0 == k
  {
  }

  /** A matching line for an unset key sets it to the trimmed value. */
  lemma LineSetsUnsetKey(env: map<string, string>, k: string, v: string)
    requires ValidKey(k) && NoTerminator(v)
    requires k !in env || env[k] == ""
    ensures ApplyLine(env, k + "=" + v) == env[k := Trim(v)]
  {
    ParseLineMatches(k + "=" + v, k, v);
    if Skipped(k + "=" + v) {
      SkippedLinesNeverMatch(k + "=" + v);
    }
  }

  // ---------------------------------------------------------------- integers

  /** The longest prefix of decimal digits. */
  function LeadingDigits(s: string): (r: string)
    ensures AllDigits(r) && |r| <= |s| && r == s[..|r|]
    ensures |r| < |s| ==> !IsDigit(s[|r|])
  {
    if s != [] && IsDigit(s[0]) then [s[0]] + LeadingDigits(s[1..]) else []
  }

  /** The leading digits of `body`, negated after a minus sign. */
  function SignedDigits(body: string, negative: bool): (r: Option<int>)
    ensures r.Some? <==> |body| > 0 && IsDigit(body[0])
    ensures r.Some? && r.value < 0 ==> negative
    ensures r.Some? && !negative ==> r.value == DigitsValue(LeadingDigits(body))
  {
    var digits := LeadingDigits(body);
    if digits == [] then None
    else if negative then Some(-(DigitsValue(digits) as int))
    else Some(DigitsValue(digits))
  }

  /** `parseInt(s, 10)`: leading white space, an optional sign and the leading
      digits; nothing (`NaN`) without a digit. */
  function ParseInt(s: string): (r: Option<int>)
    ensures var t := TrimStart(s);
      var body := if |t| > 0 && (t[0] == '-' || t[0] == '+') then t[1..] else t;
      && (r.Some? <==> |body| > 0 && IsDigit(body[0]))
      && (r.Some? && r.value < 0 ==> t[0] == '-')
      && (r.Some? && t[0] != '-' ==> r.value == DigitsValue(LeadingDigits(body)))
  {
    var t := TrimStart(s);
    if |t| > 0 && t[0] == '-' then SignedDigits(t[1..], true)
    else if |t| > 0 && t[0] == '+' then SignedDigits(t[1..], false)
    else SignedDigits(t, false)
  }

  /** Nothing is trimmed from a string that starts with a non-space. */
  lemma TrimStartKeeps(s: string)
    requires |s| > 0 && !IsJsSpace(s[0])
    ensures TrimStart(s) == s
  {
  }

  /** The digits denoting `n`, followed by a non-digit, read as `n` with
      either sign. */
  lemma SignedDigitsRead(d: string, rest: string, negative: bool)
    requires |d| > 0 && AllDigits(d)
    requires rest == [] || !IsDigit(rest[0])
    ensures SignedDigits(d + rest, negative) == Some(if negative then -(DigitsValue(d) as int) else DigitsValue(d))
  {
    DigitsPrefix(d, rest);
    SignedOfDigits(d + rest, negative, d);
  }

  lemma SignedOfDigits(body: string, negative: bool, d: string)
    requires |d| > 0 && LeadingDigits(body) == d
    ensures SignedDigits(body, negative) == Some(if negative then -(DigitsValue(d) as int) else DigitsValue(d))
  {
  }

  /** `parseInt` of digits denoting `n`, followed by a non-digit, is `n`. */
  lemma ParseIntUnsigned(d: string, rest: string, n: int)
    requires |d| > 0 && AllDigits(d) && DigitsValue(d) == n
    requires rest == [] || !IsDigit(rest[0])
    ensures ParseInt(d + rest) == Some(n)
  {
    var s := d + rest;
    assert s[0] == d[0];
    TrimStartKeeps(s);
    SignedDigitsRead(d, rest, false);
  }

  /** `parseInt` of a minus sign and digits denoting `n`, followed by a
      non-digit, is `-n`. */
  lemma ParseIntNegative(d: string, rest: string)
    requires |d| > 0 && AllDigits(d)
    requires rest == [] || !IsDigit(rest[0])
    ensures ParseInt(['-'] + (d + rest)) == Some(-(DigitsValue(d) as int))
  {
    var s := ['-'] + (d + rest);
    ParseIntAfterMinus(s);
    assert s[1..] == d + rest;
    SignedDigitsRead(d, rest, true);
  }

  lemma ParseIntAfterMinus(t: string)
    requires |t| > 0 && t[0] == '-'
    ensures ParseInt(t) == SignedDigits(t[1..], true)
  {
    TrimStartKeeps(t);
  }

  /** `parseInt` reads back the decimal rendering of any integer, also when
      other text follows that does not start with a digit. */
  lemma ParseIntReadsDecimal(i: int, rest: string)
    requires rest == [] || !IsDigit(rest[0])
    ensures ParseInt(IntToString(i) + rest) == Some(i)
  {
    if i < 0 {
      ParseIntReadsNegative(i, rest);
    } else {
      NatToStringValue(i);
      ParseIntUnsigned(NatToString(i), rest, i);
    }
  }

  lemma ParseIntReadsNegative(i: int, rest: string)
    requires i < 0
    requires rest == [] || !IsDigit(rest[0])
    ensures ParseInt(IntToString(i) + rest) == Some(i)
  {
    var d := NatToString(-i);
    calc {
      ParseInt(IntToString(i) + rest);
      { assert IntToString(i) + rest == ['-'] + (d + rest); }
      ParseInt(['-'] + (d + rest));
      { ParseIntNegative(d, rest); }
      Some(-(DigitsValue(d) as int));
      { NatToStringValue(-i); }
      Some(i);
    }
  }

  lemma {:induction false} DigitsPrefix(d: string, rest: string)
    requires AllDigits(d)
    requires rest == [] || !IsDigit(rest[0])
    ensures LeadingDigits(d + rest) == d
  {
    if d != [] {
      assert (d + rest)[1..] == d[1..] + rest;
      DigitsPrefix(d[1..], rest);
    } else {
      assert d + rest == rest;
    }
  }

  // ---------------------------------------------------------------- lists

  function TrimAll(parts: seq<string>): (r: seq<string>)
    ensures |r| == |parts| && forall i :: 0 <= i < |parts| ==> r[i] == Trim(parts[i])
  {
    seq(|parts|, i requires 0 <= i < |parts| => Trim(parts[i]))
  }

  function NonEmpty(s: string): bool { |s| > 0 }

  /** `value.split(',').map(v => v.trim()).filter(v => v.length > 0)`: the
      non-empty trimmed pieces between commas. */
  function ListItems(value: string): (r: seq<string>)
    ensures forall i :: 0 <= i < |r| ==> |r[i]| > 0 && ',' !in r[i] && Trim(r[i]) == r[i]
    ensures forall x :: x in r <==> |x| > 0 && x in TrimAll(Split(value, ','))
  {
    var parts := Split(value, ',');
    var trimmed := TrimAll(parts);
    FilterMembers(trimmed, NonEmpty);
    forall i | 0 <= i < |trimmed|
      ensures ',' !in trimmed[i] && Trim(trimmed[i]) == trimmed[i]
    {
      assert trimmed[i] == TrimEnd(TrimStart(parts[i]));
      assert ',' !in parts[i];
      TrimIdempotent(parts[i]);
    }
    Filter(trimmed, NonEmpty)
  }

  /** The items of two lists joined by a comma are the items of the first,
      then those of the second, in order. */
  lemma ListItemsAppend(a: string, b: string)
    ensures ListItems(a + [','] + b) == ListItems(a) + ListItems(b)
  {
    SplitAppend(a, b, ',');
    var x := Split(a, ',');
    var y := Split(b, ',');
    assert TrimAll(x + y) == TrimAll(x) + TrimAll(y);
    FilterAppend(TrimAll(x), TrimAll(y), NonEmpty);
  }

  /** A list of non-empty trimmed items without commas, joined with commas,
      reads back as the same list. */
  lemma ListItemsRoundTrip(items: seq<string>)
    requires |items| >= 1
    requires forall i :: 0 <= i < |items| ==> |items[i]| > 0 && ',' !in items[i] && Trim(items[i]) == items[i]
    ensures ListItems(Join(items, ",")) == items
  {
    SplitJoin(items, ',');
    assert TrimAll(items) == items;
    FilterAllOrNone(items, NonEmpty);
  }

  // ---------------------------------------------------------------- the loader

  /** What reading the `.env` file gives. */
  datatype EnvFile = Missing | Unreadable | Contents(text: string)

  /** The environment value of `key` when it is set and non-empty (truthy). */
  function Value(env: map<string, string>, key: string): (r: Option<string>)
    ensures r.Some? <==> key in env && env[key] != ""
    ensures r.Some? ==> r.value == env[key]
  {
    if key in env && env[key] != "" then Some(env[key]) else None
  }

  class Loader {
    var loaded: bool
    var env: map<string, string>

    /** The loader before its first `load`, over the process environment. */
    constructor (processEnv: map<string, string>)
      ensures !loaded && env == processEnv
    {
      loaded := false;
      env := processEnv;
    }

    /** `load`: the first call applies the file's lines, if it could be read,
        and marks the loader loaded whatever happened; later calls do
        nothing. */
    method Load(file: EnvFile)
      modifies this
      ensures loaded
      ensures old(loaded) ==> env == old(env)
      ensures !old(loaded) && file.Contents? ==> env == ApplyLines(old(env), Split(file.text, '\n'))
      ensures !old(loaded) && !file.Contents? ==> env == old(env)
    {
      if loaded {
        return;
      }
      if file.Missing? {
        loaded := true;
        return;
      }
      if file.Unreadable? {
        loaded := true;
        return;
      }
      var lines := Split(file.text, '\n');
      var start := env;
      var e := start;
      var i := 0;
      while i < |lines|
        invariant 0 <= i <= |lines|
        invariant e == ApplyLines(start, lines[..i])
      {
        ApplyLinesStep(start, lines, i);
        e := ApplyLine(e, lines[i]);
        i := i + 1;
      }
      assert lines[..|lines|] == lines;
      env := e;
      loaded := true;
    }
  }

  /** `get(key, defaultValue)` */
  function Get(env: map<string, string>, key: string, default: Option<string>): (r: Option<string>)
    ensures Value(env, key).Some? ==> r == Value(env, key)
    ensures Value(env, key).None? ==> r == default
  {
    match Value(env, key)
    case Some(v) => Some(v)
    case None => default
  }

  /** `getRequired(key)`: the value, or an error naming the variable. */
  function GetRequired(env: map<string, string>, key: string): (r: Result<string>)
    ensures r.Ok? <==> Get(env, key, None).Some?
    ensures r.Ok? ==> r.value == env[key] && r.value != ""
    ensures r.Err? ==> r.message == "Required environment variable " + key + " is not set"
  {
    match Value(env, key)
    case Some(v) => Ok(v)
    case None => Err("Required environment variable " + key + " is not set")
  }

  /** `getBoolean(key, defaultValue)`: the default when unset or empty,
      otherwise whether the value is `true` in any letter case or `1`. The
      only characters whose lower case is one of `t`, `r`, `u`, `e` are
      those letters in either case, so ASCII lower-casing decides the
      comparison. */
  function GetBoolean(env: map<string, string>, key: string, default: bool): (r: bool)
    ensures Value(env, key).None? ==> r == default
    ensures Value(env, key).Some? ==> (r <==> AsciiLower(env[key]) == "true" || env[key] == "1")
  {
    match Value(env, key)
    case Some(v) => AsciiLower(v) == "true" || v == "1"
    case None => default
  }

  /** `getNumber(key, defaultValue)` */
  function GetNumber(env: map<string, string>, key: string, default: int): (r: int)
    ensures Value(env, key).None? ==> r == default
    ensures Value(env, key).Some? && ParseInt(env[key]).None? ==> r == default
    ensures Value(env, key).Some? && ParseInt(env[key]).Some? ==> r == ParseInt(env[key]).value
  {
    match Value(env, key)
    case Some(v) => (match ParseInt(v) case Some(n) => n case None => default)
    case None => default
  }

  /** `getArray(key, defaultValue)` */
  function GetArray(env: map<string, string>, key: string, default: seq<string>): (r: seq<string>)
    ensures Value(env, key).None? ==> r == default
    ensures Value(env, key).Some? ==> r == ListItems(env[key])
  {
    match Value(env, key)
    case Some(v) => ListItems(v)
    case None => default
  }

  /** A fresh loader reading a file with one line `KEY=VALUE` for an unset
      key then answers the trimmed value, and reading another file afterwards
      changes nothing. */
  method LoadOnce(processEnv: map<string, string>, k: string, v: string, later: EnvFile)
    returns (first: Option<string>, second: Option<string>)
    requires ValidKey(k) && NoTerminator(v) && '\n' !in v
    requires k !in processEnv || processEnv[k] == ""
    ensures first == Value(processEnv[k := Trim(v)], k)
    ensures second == first
  {
    var ld := new Loader(processEnv);
    var text := k + "=" + v;
    assert '\n' !in text;
    SplitSingle(text);
    ld.Load(Contents(text));
    assert ApplyLines(processEnv, [text]) == ApplyLine(processEnv, text);
    LineSetsUnsetKey(processEnv, k, v);
    first := Get(ld.env, k, None);
    ld.Load(later);
    second := Get(ld.env, k, None);
  }

  lemma SplitSingle(s: string)
    requires '\n' !in s
    ensures Split(s, '\n') == [s]
  {
    SplitJoin([s], '\n');
    assert Join([s], "\n") == s;
  }
}
