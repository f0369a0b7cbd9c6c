/** The texts the service integration writes and reads back: the session env file and the autostart entry. */
module ServiceText {
  import opened Wrappers

  // ---- the string library, on Unicode characters ----

  predicate IsControlChar(c: char) {
    c as int < 0x20 || 0x7F <= c as int <= 0x9F
  }

  predicate IsSpaceChar(c: char) {
    var u := c as int;
    || 0x9 <= u <= 0xD || u == 0x20 || u == 0x85 || u == 0xA0 || u == 0x1680 || 0x2000 <= u <= 0x200A
    || u == 0x2028 || u == 0x2029 || u == 0x202F || u == 0x205F || u == 0x3000
  }

  /** Length in UTF-8 (section 3 of RFC 3629). */
  function Utf8Len(s: string): nat {
    if s == "" then 0
    else
      var u := s[0] as int;
      (if u < 0x80 then 1 else if u < 0x800 then 2 else if u < 0x10000 then 3 else 4) + Utf8Len(s[1..])
  }

  function TrimStart(s: string): string {
    if s != "" && IsSpaceChar(s[0]) then TrimStart(s[1..]) else s
  }

  function TrimEnd(s: string): string {
    if s != "" && IsSpaceChar(s[|s| - 1]) then TrimEnd(s[..|s| - 1]) else s
  }

  function Trim(s: string): string {
    TrimEnd(TrimStart(s))
  }

  /** Every `c` becomes `to`. */
  function ReplaceChar(s: string, c: char, to: string): string {
    if s == "" then "" else (if s[0] == c then to else [s[0]]) + ReplaceChar(s[1..], c, to)
  }

  /** Every `pattern`, found from the left, becomes `to`. */
  function Replace(s: string, pattern: string, to: string): string
    requires pattern != ""
  {
    if |s| < |pattern| then s
    else if pattern <= s then to + Replace(s[|pattern|..], pattern, to)
    else [s[0]] + Replace(s[1..], pattern, to)
  }

  function StripPrefix(s: string, prefix: string): Option<string> {
    if prefix <= s then Some(s[|prefix|..]) else None
  }

  /** Without its carriage return, if it ends in one. */
  function WithoutCr(line: string): string {
    if line != "" && line[|line| - 1] == '\r' then line[..|line| - 1] else line
  }

  /** Lines end at '\n' or "\r\n"; the last one needs no end. `i` is how much of the first is known to be line. */
  function LinesFrom(s: string, i: nat): seq<string>
    requires i <= |s|
    decreases |s|, |s| - i
  {
    if s == "" then []
    else if i == |s| then [s]
    else if s[i] == '\n' then [WithoutCr(s[..i])] + LinesFrom(s[i + 1..], 0)
    else LinesFrom(s, i + 1)
  }

  function Lines(s: string): seq<string> {
    LinesFrom(s, 0)
  }

  /** The text of whole lines. */
  function Joined(lines: seq<string>): string {
    if lines == [] then "" else lines[0] + "\n" + Joined(lines[1..])
  }

  predicate IsLine(line: string) {
    '\n' !in line && (line != "" ==> line[|line| - 1] != '\r')
  }

  lemma {:induction false} FirstLine(line: string, rest: string, i: nat)
    requires IsLine(line) && i <= |line|
    ensures LinesFrom(line + "\n" + rest, i) == [line] + Lines(rest)
    decreases |line| - i
  {
    var s := line + "\n" + rest;
    if i == |line| {
      assert s[i] == '\n' && s[..i] == line && s[i + 1..] == rest;
    } else {
      assert s[i] == line[i];
      FirstLine(line, rest, i + 1);
    }
  }

  lemma {:induction false} LinesOfJoined(lines: seq<string>)
    requires forall i | 0 <= i < |lines| :: IsLine(lines[i])
    ensures Lines(Joined(lines)) == lines
  {
    if lines != [] {
      FirstLine(lines[0], Joined(lines[1..]), 0);
      LinesOfJoined(lines[1..]);
    }
  }

  lemma {:induction false} JoinedAppend(lines: seq<string>, line: string)
    ensures Joined(lines + [line]) == Joined(lines) + line + "\n"
  {
    if lines == [] {
      assert Joined([line]) == line + "\n" + Joined([line][1..]);
    } else {
      assert (lines + [line])[1..] == lines[1..] + [line];
      JoinedAppend(lines[1..], line);
    }
  }

  // ---- the session env file ----

  const HEADER := "# Written by " + "\"dosi-tracker " + "service " + "session-start\" " + "for the " + "dosi-tracker " + "user unit."
  const LAUNCH_LINE := "DOSI_LAUNCH=\"login\""
  const SESSION_ID := "XDG_SESSION_ID"
  const SESSION_ENV_KEYS := [
    "DISPLAY", "WAYLAND_DISPLAY", "XAUTHORITY", "XDG_SESSION_TYPE", "XDG_SESSION_ID",
    "XDG_CURRENT_DESKTOP", "XDG_SESSION_DESKTOP", "DBUS_SESSION_BUS_ADDRESS"]
  const MAX_ENV_VALUE_BYTES := 4096

  datatype ValueFault = TooLong | HasControlCharacter | HasDollarOrBacktick

  datatype ServiceError = InvalidValue(name: string, why: ValueFault)

  function FaultOf(value: string): Option<ValueFault> {
    if Utf8Len(value) > MAX_ENV_VALUE_BYTES then Some(TooLong)
    else if exists i | 0 <= i < |value| :: IsControlChar(value[i]) then Some(HasControlCharacter)
    else if '$' in value || '`' in value then Some(HasDollarOrBacktick)
    else None
  }

  function Escaped(value: string): string {
    ReplaceChar(ReplaceChar(value, '\\', "\\\\"), '"', "\\\"")
  }

  function EnvLine(key: string, value: string): string {
    key + "=\"" + Escaped(value) + "\""
  }

  /** Is `key` among the variables with a value? */
  predicate Has(vars: map<string, string>, key: string) {
    key in vars && vars[key] != ""
  }

  /** The lines for the variables present among `keys`. */
  function EnvLines(vars: map<string, string>, keys: seq<string>): seq<string> {
    if keys == [] then []
    else
      var last := keys[|keys| - 1];
      EnvLines(vars, keys[..|keys| - 1]) + (if Has(vars, last) then [EnvLine(last, vars[last])] else [])
  }

  /** No variable among `keys` has a value that cannot be written. */
  predicate Writable(vars: map<string, string>, keys: seq<string>) {
    forall i | 0 <= i < |keys| && Has(vars, keys[i]) :: FaultOf(vars[keys[i]]).None?
  }

  lemma EnvLinesStep(vars: map<string, string>, keys: seq<string>, i: nat)
    requires i < |keys|
    ensures EnvLines(vars, keys[..i + 1])
         == EnvLines(vars, keys[..i]) + (if Has(vars, keys[i]) then [EnvLine(keys[i], vars[keys[i]])] else [])
    ensures Writable(vars, keys[..i + 1])
       <==> Writable(vars, keys[..i]) && (Has(vars, keys[i]) ==> FaultOf(vars[keys[i]]).None?)
  {
    assert keys[..i + 1][..i] == keys[..i];
  }

  /** The value can be written: at most 4 KiB, no control character, no dollar sign and no backtick. */
  ghost predicate CanBeWritten(value: string) {
    && Utf8Len(value) <= 4096
    && forall i | 0 <= i < |value| ::
         && 32 <= value[i] as int && !(127 <= value[i] as int <= 159)
         && value[i] != '$' && value[i] != '`'
  }

  /** Exactly those values have no fault, and the fault named is there. */
  lemma FaultsNamed(value: string)
    ensures FaultOf(value).None? <==> CanBeWritten(value)
    ensures FaultOf(value) == Some(TooLong) <==> Utf8Len(value) > 4096
    ensures FaultOf(value) == Some(HasControlCharacter) ==>
              exists i :: 0 <= i < |value| && (value[i] as int < 32 || 127 <= value[i] as int <= 159)
    ensures FaultOf(value) == Some(HasDollarOrBacktick) ==> exists i :: 0 <= i < |value| && (value[i] == '$' || value[i] == '`')
  {
  }

  /** One variable's line: its name, and a quoted text that reads back as its value. */
  lemma LineReadsBack(key: string, value: string)
    ensures key + "=\"" <= EnvLine(key, value)
    ensures Unescaped(Unquoted(Trim(EnvLine(key, value)[|key| + 1..]))) == value
  {
    var line := EnvLine(key, value);
    assert line[|key| + 1..] == "\"" + Escaped(value) + "\"";
    QuotedReadsBack(value);
  }

  /** The lines follow the order of the keys, each present one exactly once. */
  lemma {:induction false} LinesInOrder(vars: map<string, string>, keys: seq<string>, i: nat)
    requires i < |keys|
    ensures var before := |EnvLines(vars, keys[..i])|;
            && before <= |EnvLines(vars, keys)|
            && (Has(vars, keys[i]) ==> before < |EnvLines(vars, keys)| && EnvLines(vars, keys)[before] == EnvLine(keys[i], vars[keys[i]]))
            && |EnvLines(vars, keys[..i + 1])| == before + (if Has(vars, keys[i]) then 1 else 0)
    decreases |keys|
  {
    EnvLinesStep(vars, keys, i);
    if i < |keys| - 1 {
      var init := keys[..|keys| - 1];
      LinesInOrder(vars, init, i);
      assert init[..i] == keys[..i] && init[..i + 1] == keys[..i + 1];
    } else {
      assert keys[..i + 1] == keys;
    }
  }

  /** `render_session_env` */
  method RenderSessionEnv(vars: map<string, string>) returns (r: Result<string, ServiceError>)
    ensures r.Ok? <==> Writable(vars, SESSION_ENV_KEYS)
    ensures r.Ok? ==> forall i | 0 <= i < |SESSION_ENV_KEYS| && Has(vars, SESSION_ENV_KEYS[i]) :: CanBeWritten(vars[SESSION_ENV_KEYS[i]])
    ensures r.Err? ==> r.error.name in vars && !CanBeWritten(vars[r.error.name])
    ensures r.Ok? ==> r.value == Joined([HEADER] + EnvLines(vars, SESSION_ENV_KEYS))
    ensures r.Err? ==>
              exists i :: 0 <= i < |SESSION_ENV_KEYS| && Writable(vars, SESSION_ENV_KEYS[..i])
                       && Has(vars, SESSION_ENV_KEYS[i])
                       && FaultOf(vars[SESSION_ENV_KEYS[i]]) == Some(r.error.why) && r.error.name == SESSION_ENV_KEYS[i]
  {
    var out := HEADER + "\n";
    JoinedAppend([], HEADER);
    for i := 0 to |SESSION_ENV_KEYS|
      invariant Writable(vars, SESSION_ENV_KEYS[..i])
      invariant out == Joined([HEADER] + EnvLines(vars, SESSION_ENV_KEYS[..i]))
    {
      var key := SESSION_ENV_KEYS[i];
      EnvLinesStep(vars, SESSION_ENV_KEYS, i);
      ghost var soFar := EnvLines(vars, SESSION_ENV_KEYS[..i]);
      assert soFar + [] == soFar;
      if key in vars && vars[key] != "" {
        var fault := FaultOf(vars[key]);
        FaultsNamed(vars[key]);
        if fault.Some? {
          return Err(InvalidValue(key, fault.value));
        }
        var line := key + "=\"" + Escaped(vars[key]) + "\"";
        JoinedAppend([HEADER] + soFar, line);
        assert [HEADER] + (soFar + [line]) == ([HEADER] + soFar) + [line];
        out := out + line + "\n";
      }
    }
    assert SESSION_ENV_KEYS[..|SESSION_ENV_KEYS|] == SESSION_ENV_KEYS;
    forall i | 0 <= i < |SESSION_ENV_KEYS| && Has(vars, SESSION_ENV_KEYS[i])
      ensures CanBeWritten(vars[SESSION_ENV_KEYS[i]])
    {
      FaultsNamed(vars[SESSION_ENV_KEYS[i]]);
    }
    return Ok(out);
  }

  // ---- reading it back ----

  function Unquoted(value: string): string {
    match StripPrefix(value, "\"")
    case Some(v) => if v != "" && v[|v| - 1] == '"' then v[..|v| - 1] else value
    case None => value
  }

  function Unescaped(s: string): string {
    Replace(Replace(s, "\\\"", "\""), "\\\\", "\\")
  }

  function SessionIdOf(line: string): Option<string> {
    match StripPrefix(Trim(line), SESSION_ID + "=")
    case Some(value) => Some(Unescaped(Unquoted(Trim(value))))
    case None => None
  }

  function FirstSessionId(lines: seq<string>): Option<string> {
    if lines == [] then None
    else if SessionIdOf(lines[0]).Some? then SessionIdOf(lines[0])
    else FirstSessionId(lines[1..])
  }

  /** `session_id_in_env_file` */
  function SessionIdIn(text: string): Option<string> {
    FirstSessionId(Lines(text))
  }

  /** Undoing the quotes finds exactly the escaped ones. */
  lemma {:induction false} QuotesUnescape(x: string)
    ensures Replace(ReplaceChar(x, '"', "\\\""), "\\\"", "\"") == x
  {
    if x != "" {
      QuotesUnescape(x[1..]);
      var rest := ReplaceChar(x[1..], '"', "\\\"");
      var s := ReplaceChar(x, '"', "\\\"");
      if x[0] == '"' {
        assert s == "\\\"" + rest && s[2..] == rest;
      } else {
        assert s == [x[0]] + rest && s[1..] == rest;
        assert rest != "" ==> rest[0] != '"' by {
          if x[1..] != "" { assert rest[0] == if x[1] == '"' then '\\' else x[1]; }
        }
      }
    }
  }

  /** And undoing the backslashes exactly the doubled ones. */
  lemma {:induction false} BackslashesUnescape(x: string)
    ensures Replace(ReplaceChar(x, '\\', "\\\\"), "\\\\", "\\") == x
  {
    if x != "" {
      BackslashesUnescape(x[1..]);
      var rest := ReplaceChar(x[1..], '\\', "\\\\");
      var s := ReplaceChar(x, '\\', "\\\\");
      if x[0] == '\\' {
        assert s == "\\\\" + rest && s[2..] == rest;
      } else {
        assert s == [x[0]] + rest && s[1..] == rest;
      }
    }
  }

  lemma EscapingRoundTrips(value: string)
    ensures Unescaped(Escaped(value)) == value
  {
    QuotesUnescape(ReplaceChar(value, '\\', "\\\\"));
    BackslashesUnescape(value);
  }

  lemma TrimKeeps(s: string)
    requires s != "" && !IsSpaceChar(s[0]) && !IsSpaceChar(s[|s| - 1])
    ensures Trim(s) == s
  {
  }

  /** A quoted value is read back whole. */
  lemma QuotedReadsBack(value: string)
    ensures Unescaped(Unquoted(Trim("\"" + Escaped(value) + "\""))) == value
  {
    var q := "\"" + Escaped(value) + "\"";
    TrimKeeps(q);
    assert q[1..] == Escaped(value) + "\"";
    assert q[1..][..|q[1..]| - 1] == Escaped(value);
    EscapingRoundTrips(value);
  }

  lemma SessionLineReadsBack(value: string)
    ensures SessionIdOf(EnvLine(SESSION_ID, value)) == Some(value)
  {
    var line := EnvLine(SESSION_ID, value);
    var q := "\"" + Escaped(value) + "\"";
    assert line == SESSION_ID + "=" + q;
    TrimKeeps(line);
    assert line[|SESSION_ID + "="|..] == q;
    QuotedReadsBack(value);
  }

  lemma {:induction false} ReplaceAddsOnly(s: string, c: char, to: string, x: char)
    requires x !in s && x !in to
    ensures x !in ReplaceChar(s, c, to)
  {
    if s != "" {
      ReplaceAddsOnly(s[1..], c, to, x);
    }
  }

  /** A written value stays on its line. */
  lemma EnvLineIsLine(key: string, value: string)
    requires '\n' !in key && FaultOf(value).None?
    ensures IsLine(EnvLine(key, value))
  {
    assert forall i | 0 <= i < |value| :: !IsControlChar(value[i]);
    ReplaceAddsOnly(value, '\\', "\\\\", '\n');
    ReplaceAddsOnly(ReplaceChar(value, '\\', "\\\\"), '"', "\\\"", '\n');
  }

  /** Where an env file key differs from the session id's. */
  lemma OtherKeysDiffer(key: string) returns (p: nat)
    requires key in SESSION_ENV_KEYS && key != SESSION_ID
    ensures p < |key| && p < |SESSION_ID| && key[p] != SESSION_ID[p] && !IsSpaceChar(key[0])
  {
    p := if key == "DISPLAY" || key == "WAYLAND_DISPLAY" || key == "DBUS_SESSION_BUS_ADDRESS" then 0
         else if key == "XAUTHORITY" then 1
         else if key == "XDG_CURRENT_DESKTOP" then 4
         else 12;
  }

  lemma OtherLinesAreSkipped(line: string, p: nat)
    requires line != "" && !IsSpaceChar(line[0]) && !IsSpaceChar(line[|line| - 1])
    requires p < |line| && p < |SESSION_ID| && line[p] != SESSION_ID[p]
    ensures SessionIdOf(line).None?
  {
    TrimKeeps(line);
    assert (SESSION_ID + "=")[p] == SESSION_ID[p];
  }

  lemma {:induction false} FirstAppend(a: seq<string>, b: seq<string>)
    ensures FirstSessionId(a + b) == if FirstSessionId(a).Some? then FirstSessionId(a) else FirstSessionId(b)
  {
    if a == [] {
      assert a + b == b;
    } else {
      assert (a + b)[1..] == a[1..] + b;
      FirstAppend(a[1..], b);
    }
  }

  lemma {:induction false} EnvLinesReadBack(vars: map<string, string>, n: nat)
    requires n <= |SESSION_ENV_KEYS| && Writable(vars, SESSION_ENV_KEYS[..n])
    ensures forall i | 0 <= i < |EnvLines(vars, SESSION_ENV_KEYS[..n])| :: IsLine(EnvLines(vars, SESSION_ENV_KEYS[..n])[i])
    ensures FirstSessionId(EnvLines(vars, SESSION_ENV_KEYS[..n]))
         == if n > 4 && Has(vars, SESSION_ID) then Some(vars[SESSION_ID]) else None
  {
    if n > 0 {
      EnvLinesStep(vars, SESSION_ENV_KEYS, n - 1);
      EnvLinesReadBack(vars, n - 1);
      var soFar := EnvLines(vars, SESSION_ENV_KEYS[..n - 1]);
      var key := SESSION_ENV_KEYS[n - 1];
      if Has(vars, key) {
        KeyLineReadsBack(vars, n - 1);
      }
      FirstAppend(soFar, if Has(vars, key) then [EnvLine(key, vars[key])] else []);
    }
  }

  lemma KeyLineReadsBack(vars: map<string, string>, i: nat)
    requires i < |SESSION_ENV_KEYS| && Has(vars, SESSION_ENV_KEYS[i]) && FaultOf(vars[SESSION_ENV_KEYS[i]]).None?
    ensures var (key, value) := (SESSION_ENV_KEYS[i], vars[SESSION_ENV_KEYS[i]]);
            && IsLine(EnvLine(key, value))
            && SessionIdOf(EnvLine(key, value)) == if i == 4 then Some(value) else None
  {
    var (key, value) := (SESSION_ENV_KEYS[i], vars[SESSION_ENV_KEYS[i]]);
    EnvLineIsLine(key, value);
    if i == 4 {
      SessionLineReadsBack(value);
    } else {
      assert key in SESSION_ENV_KEYS && key != SESSION_ID;
      var p := OtherKeysDiffer(key);
      assert EnvLine(key, value)[p] == key[p];
      OtherLinesAreSkipped(EnvLine(key, value), p);
    }
  }

  lemma HeaderIsLine()
    ensures IsLine(HEADER) && HEADER[0] == '#' && HEADER[|HEADER| - 1] == '.'
  {
    assert '\n' !in "# Written by " && '\n' !in "\"dosi-tracker " && '\n' !in "service ";
    assert '\n' !in "session-start\" " && '\n' !in "for the " && '\n' !in "dosi-tracker " && '\n' !in "user unit.";
  }

  lemma FixedLinesAreSkipped()
    ensures IsLine(HEADER) && SessionIdOf(HEADER).None?
    ensures IsLine(LAUNCH_LINE) && SessionIdOf(LAUNCH_LINE).None?
  {
    HeaderIsLine();
    OtherLinesAreSkipped(HEADER, 0);
    OtherLinesAreSkipped(LAUNCH_LINE, 0);
  }

  /** The session id written is the session id read back, whatever quotes and backslashes it has, and without
      one none is read; the launch line that follows makes no difference. */
  lemma SessionIdRoundTrips(vars: map<string, string>)
    requires Writable(vars, SESSION_ENV_KEYS)
    ensures var text := Joined([HEADER] + EnvLines(vars, SESSION_ENV_KEYS));
            var id := if Has(vars, SESSION_ID) then Some(vars[SESSION_ID]) else None;
            SessionIdIn(text) == id && SessionIdIn(text + LAUNCH_LINE + "\n") == id
  {
    var lines := EnvLines(vars, SESSION_ENV_KEYS);
    assert SESSION_ENV_KEYS[..|SESSION_ENV_KEYS|] == SESSION_ENV_KEYS;
    EnvLinesReadBack(vars, |SESSION_ENV_KEYS|);
    FixedLinesAreSkipped();
    FirstAppend([HEADER], lines);
    FirstAppend([HEADER] + lines, [LAUNCH_LINE]);
    LinesOfJoined([HEADER] + lines);
    LinesOfJoined([HEADER] + lines + [LAUNCH_LINE]);
    JoinedAppend([HEADER] + lines, LAUNCH_LINE);
  }
}
