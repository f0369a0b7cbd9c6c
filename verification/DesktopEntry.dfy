/** The autostart entry's `Exec` value, and how a launcher reads it by the Desktop Entry Specification. */
module DesktopEntry {
  import opened Wrappers
  import opened ServiceText

  // ---- writing ----

  /** The characters reserved in an unquoted argument ("The Exec key"). */
  const RESERVED := {
    ' ', '\t', '\n', '"', '\'', '\\', '>', '<', '~', '|', '&', ';', '$', '*', '?', '#', '(', ')', '`'}

  /** The characters escaped inside quotes. */
  const ESCAPED := {'"', '`', '$', '\\'}

  predicate HasReserved(s: string) {
    exists i | 0 <= i < |s| :: s[i] in RESERVED
  }

  function QuoteEscaped(s: string): string {
    if s == "" then "" else (if s[0] in ESCAPED then ['\\', s[0]] else [s[0]]) + QuoteEscaped(s[1..])
  }

  function ExecQuoted(arg: string): string {
    var doubled := ReplaceChar(arg, '%', "%%");
    if HasReserved(doubled) then "\"" + QuoteEscaped(doubled) + "\"" else doubled
  }

  lemma {:induction false} QuoteEscapedAppend(s: string, c: char)
    ensures QuoteEscaped(s + [c]) == QuoteEscaped(s) + (if c in ESCAPED then ['\\', c] else [c])
  {
    if s == "" {
      assert QuoteEscaped([c][1..]) == "";
    } else {
      assert (s + [c])[1..] == s[1..] + [c];
      QuoteEscapedAppend(s[1..], c);
    }
  }

  /** `exec_quote` */
  method ExecQuote(arg: string) returns (quoted: string)
    ensures quoted == ExecQuoted(arg)
  {
    var doubled := ReplaceChar(arg, '%', "%%");
    if !HasReserved(doubled) {
      return doubled;
    }
    quoted := "\"";
    for i := 0 to |doubled|
      invariant quoted == "\"" + QuoteEscaped(doubled[..i])
    {
      QuoteEscapedAppend(doubled[..i], doubled[i]);
      assert doubled[..i + 1] == doubled[..i] + [doubled[i]];
      if doubled[i] in ESCAPED {
        quoted := quoted + "\\";
      }
      quoted := quoted + [doubled[i]];
    }
    assert doubled[..|doubled|] == doubled;
    quoted := quoted + "\"";
  }

  /** `desktop_string` */
  function DesktopString(value: string): string {
    ReplaceChar(value, '\\', "\\\\")
  }

  function ExecValue(path: string): string {
    DesktopString(ExecQuoted(path))
  }

  /** What `require_absolute` accepts. */
  predicate Acceptable(path: string) {
    path != "" && path[0] == '/' && forall i | 0 <= i < |path| :: !IsControlChar(path[i])
  }

  // ---- reading, as the specification says ----

  /** A value of type string ("Possible value types"): \s, \n, \t, \r and \\ stand for one character each. */
  function StringValue(s: string): string {
    if |s| < 2 then s
    else if s[0] == '\\' && s[1] == '\\' then "\\" + StringValue(s[2..])
    else if s[0] == '\\' && s[1] == 's' then " " + StringValue(s[2..])
    else if s[0] == '\\' && s[1] == 'n' then "\n" + StringValue(s[2..])
    else if s[0] == '\\' && s[1] == 't' then "\t" + StringValue(s[2..])
    else if s[0] == '\\' && s[1] == 'r' then "\r" + StringValue(s[2..])
    else [s[0]] + StringValue(s[1..])
  }

  datatype Argument = Argument(text: string, rest: string)

  /** The rest of a quoted argument, its escapes undone. */
  function QuotedArgument(s: string): Option<Argument> {
    if s == "" then None
    else if s[0] == '"' then Some(Argument("", s[1..]))
    else
      var escape := |s| > 1 && s[0] == '\\' && (s[1] == '"' || s[1] == '`' || s[1] == '$' || s[1] == '\\');
      match QuotedArgument(s[if escape then 2 else 1..])
      case None => None
      case Some(more) => Some(Argument([if escape then s[1] else s[0]] + more.text, more.rest))
  }

  /** An unquoted argument ends at a space. */
  function PlainArgument(s: string): Argument {
    if s == "" || s[0] == ' ' then Argument("", s)
    else
      var more := PlainArgument(s[1..]);
      Argument([s[0]] + more.text, more.rest)
  }

  function FirstArgument(s: string): Option<Argument> {
    if s != "" && s[0] == '"' then QuotedArgument(s[1..]) else Some(PlainArgument(s))
  }

  /** Field codes: "%%" is a percent sign; any other one is not part of a program's path. */
  function Expanded(arg: string): Option<string> {
    if arg == "" then Some("")
    else if arg[0] != '%' then
      (match Expanded(arg[1..]) case None => None case Some(more) => Some([arg[0]] + more))
    else if |arg| > 1 && arg[1] == '%' then
      (match Expanded(arg[2..]) case None => None case Some(more) => Some("%" + more))
    else None
  }

  /** The program an `Exec` value starts, and what follows it: quoting is undone before field codes. */
  function Program(value: string): Option<Argument> {
    match FirstArgument(StringValue(value))
    case None => None
    case Some(arg) => (match Expanded(arg.text) case None => None case Some(path) => Some(Argument(path, arg.rest)))
  }

  // ---- the round trip ----

  /** One character of a value, as it was written, reads as itself. */
  lemma StringValueStep(c: char, rest: string)
    ensures StringValue((if c == '\\' then "\\\\" else [c]) + rest) == [c] + StringValue(rest)
  {
    if c == '\\' {
      var s := "\\\\" + rest;
      assert s[2..] == rest;
    } else {
      var s := [c] + rest;
      assert s[1..] == rest;
      assert rest == "" ==> s == [c];
    }
  }

  lemma {:induction false} StringValueOfDesktopString(x: string, tail: string)
    requires '\\' !in tail
    ensures StringValue(DesktopString(x) + tail) == x + tail
  {
    if x == "" {
      NoEscapes(tail);
      assert DesktopString(x) + tail == tail && x + tail == tail;
    } else {
      StringValueOfDesktopString(x[1..], tail);
      var first := if x[0] == '\\' then "\\\\" else [x[0]];
      StringValueStep(x[0], DesktopString(x[1..]) + tail);
      Associates(first, DesktopString(x[1..]), tail);
      Associates([x[0]], x[1..], tail);
      assert [x[0]] + x[1..] == x;
    }
  }

  lemma Associates(a: string, b: string, c: string)
    ensures a + b + c == a + (b + c)
  {
  }

  lemma {:induction false} NoEscapes(s: string)
    requires '\\' !in s
    ensures StringValue(s) == s
  {
    if |s| >= 2 {
      assert s[0] in s;
      NoEscapes(s[1..]);
    }
  }

  /** One character inside quotes, as it was written, reads as itself. */
  lemma QuotedStep(c: char, rest: string)
    requires QuotedArgument(rest).Some?
    ensures QuotedArgument((if c in ESCAPED then ['\\', c] else [c]) + rest)
         == Some(Argument([c] + QuotedArgument(rest).value.text, QuotedArgument(rest).value.rest))
  {
    if c in ESCAPED {
      var s := ['\\', c] + rest;
      assert s[2..] == rest;
    } else {
      var s := [c] + rest;
      assert s[1..] == rest;
    }
  }

  lemma {:induction false} QuotedReadsBack(x: string, tail: string)
    ensures QuotedArgument(QuoteEscaped(x) + ("\"" + tail)) == Some(Argument(x, tail))
  {
    if x == "" {
      assert QuoteEscaped(x) + ("\"" + tail) == "\"" + tail && ("\"" + tail)[1..] == tail;
    } else {
      QuotedReadsBack(x[1..], tail);
      QuotedStep(x[0], QuoteEscaped(x[1..]) + ("\"" + tail));
      Associates(if x[0] in ESCAPED then ['\\', x[0]] else [x[0]], QuoteEscaped(x[1..]), "\"" + tail);
      assert [x[0]] + x[1..] == x;
    }
  }

  lemma {:induction false} PlainReadsBack(x: string, tail: string)
    requires ' ' !in x && tail != "" && tail[0] == ' '
    ensures PlainArgument(x + tail) == Argument(x, tail)
  {
    if x == "" {
      assert x + tail == tail;
    } else {
      assert x[0] in x;
      PlainReadsBack(x[1..], tail);
      assert (x + tail)[1..] == x[1..] + tail;
      assert [x[0]] + x[1..] == x;
    }
  }

  lemma {:induction false} PercentsExpand(x: string)
    ensures Expanded(ReplaceChar(x, '%', "%%")) == Some(x)
  {
    if x != "" {
      PercentsExpand(x[1..]);
      var rest := ReplaceChar(x[1..], '%', "%%");
      var s := ReplaceChar(x, '%', "%%");
      if x[0] == '%' {
        assert s == "%%" + rest && s[2..] == rest;
      } else {
        assert s == [x[0]] + rest && s[1..] == rest;
      }
      assert [x[0]] + x[1..] == x;
    }
  }

  lemma {:induction false} PlainReadsOn(doubled: string, tail: string)
    requires !HasReserved(doubled) && doubled != "" && doubled[0] == '/' && tail != "" && tail[0] == ' '
    ensures FirstArgument(doubled + tail) == Some(Argument(doubled, tail))
  {
    assert forall i | 0 <= i < |doubled| :: doubled[i] !in RESERVED;
    PlainReadsBack(doubled, tail);
  }

  lemma QuotedReadsOn(doubled: string, tail: string)
    ensures FirstArgument("\"" + QuoteEscaped(doubled) + "\"" + tail) == Some(Argument(doubled, tail))
  {
    QuotedReadsBack(doubled, tail);
    Associates("\"" + QuoteEscaped(doubled), "\"", tail);
    Associates("\"", QuoteEscaped(doubled), "\"" + tail);
    FirstQuoted(QuoteEscaped(doubled) + ("\"" + tail));
  }

  lemma FirstQuoted(s: string)
    ensures FirstArgument("\"" + s) == QuotedArgument(s)
  {
    assert ("\"" + s)[1..] == s;
  }

  /** A launcher starts exactly the program the entry was written for, with the arguments that follow. */
  lemma ExecRoundTrips(path: string, tail: string)
    requires Acceptable(path) && tail != "" && tail[0] == ' ' && '\\' !in tail
    ensures Program(ExecValue(path) + tail) == Some(Argument(path, tail))
  {
    var doubled := ReplaceChar(path, '%', "%%");
    StringValueOfDesktopString(ExecQuoted(path), tail);
    PercentsExpand(path);
    if HasReserved(doubled) {
      QuotedReadsOn(doubled, tail);
    } else {
      PlainReadsOn(doubled, tail);
    }
  }

  /** `TryExec` names the same program. */
  lemma TryExecRoundTrips(path: string)
    ensures StringValue(DesktopString(path)) == path
  {
    StringValueOfDesktopString(path, "");
    assert DesktopString(path) + "" == DesktopString(path) && path + "" == path;
  }

  lemma {:induction false} QuotingAddsOnly(s: string, x: char)
    requires x !in s && x != '\\'
    ensures x !in QuoteEscaped(s)
  {
    if s != "" {
      QuotingAddsOnly(s[1..], x);
    }
  }

  /** No control character gets into the value, so it stays on its line. */
  lemma ExecStaysOnLine(path: string, x: char)
    requires Acceptable(path) && IsControlChar(x)
    ensures x !in ExecValue(path)
  {
    var doubled := ReplaceChar(path, '%', "%%");
    ReplaceAddsOnly(path, '%', "%%", x);
    QuotingAddsOnly(doubled, x);
    ReplaceAddsOnly(ExecQuoted(path), '\\', "\\\\", x);
  }

  /** A character the specification reserves: whitespace, quotes, backslash, redirections and separators, shell
      expansions, comments and parentheses. */
  ghost predicate SpecReserves(c: char) {
    || c == ' ' || c == '\t' || c == '\n' || c == '"' || c == '\'' || c == '\\' || c == '>' || c == '<' || c == '~'
    || c == '|' || c == '&' || c == ';' || c == '$' || c == '*' || c == '?' || c == '#' || c == '(' || c == ')' || c == '`'
  }

  /** Inside quotes, every quote, backtick, dollar sign and backslash is escaped by a backslash. */
  ghost predicate WellEscaped(s: string) {
    if s == "" then true
    else if s[0] == '\\' then |s| > 1 && (s[1] == '"' || s[1] == '`' || s[1] == '$' || s[1] == '\\') && WellEscaped(s[2..])
    else s[0] != '"' && s[0] != '`' && s[0] != '$' && WellEscaped(s[1..])
  }

  lemma {:induction false} EscapedWell(s: string)
    ensures WellEscaped(QuoteEscaped(s))
  {
    if s != "" {
      EscapedWell(s[1..]);
      var rest := QuoteEscaped(s[1..]);
      if s[0] in ESCAPED {
        assert (['\\', s[0]] + rest)[2..] == rest;
      } else {
        assert ([s[0]] + rest)[1..] == rest;
      }
    }
  }

  /** An argument is quoted exactly if it has a reserved character, and is then well escaped inside its quotes;
      otherwise it has none. */
  lemma QuotedAsSpecified(arg: string)
    ensures (exists i :: 0 <= i < |arg| && SpecReserves(arg[i])) ==>
              exists inner :: ExecQuoted(arg) == "\"" + inner + "\"" && WellEscaped(inner)
    ensures !(exists i :: 0 <= i < |arg| && SpecReserves(arg[i])) ==>
              ExecQuoted(arg) == ReplaceChar(arg, '%', "%%") && forall i | 0 <= i < |ExecQuoted(arg)| :: !SpecReserves(ExecQuoted(arg)[i])
  {
    var doubled := ReplaceChar(arg, '%', "%%");
    DoublingKeepsReserved(arg);
    EscapedWell(doubled);
  }

  lemma {:induction false} DoublingKeepsReserved(arg: string)
    ensures HasReserved(ReplaceChar(arg, '%', "%%")) <==> exists i :: 0 <= i < |arg| && SpecReserves(arg[i])
  {
    if arg != "" {
      DoublingKeepsReserved(arg[1..]);
      var (rest, all) := (ReplaceChar(arg[1..], '%', "%%"), ReplaceChar(arg, '%', "%%"));
      var first := if arg[0] == '%' then "%%" else [arg[0]];
      assert all == first + rest;
      ReservedInSum(first, rest);
      SpecInSum([arg[0]], arg[1..]);
      assert [arg[0]] + arg[1..] == arg;
      assert HasReserved(first) <==> SpecReserves(arg[0]) by {
        assert first[0] == arg[0] && forall i | 0 <= i < |first| :: first[i] == arg[0];
      }
    }
  }

  lemma ReservedInSum(a: string, b: string)
    ensures HasReserved(a + b) <==> HasReserved(a) || HasReserved(b)
  {
    if i :| 0 <= i < |b| && b[i] in RESERVED {
      assert (a + b)[|a| + i] in RESERVED;
    }
    if i :| 0 <= i < |a| && a[i] in RESERVED {
      assert (a + b)[i] in RESERVED;
    }
  }

  lemma SpecInSum(a: string, b: string)
    ensures (exists i :: 0 <= i < |a + b| && SpecReserves((a + b)[i]))
       <==> (exists i :: 0 <= i < |a| && SpecReserves(a[i])) || (exists i :: 0 <= i < |b| && SpecReserves(b[i]))
  {
    if i :| 0 <= i < |b| && SpecReserves(b[i]) {
      assert SpecReserves((a + b)[|a| + i]);
    }
    if i :| 0 <= i < |a| && SpecReserves(a[i]) {
      assert SpecReserves((a + b)[i]);
    }
  }

  // ---- filling in the template ----

  const EXEC := "@EXEC@"
  const TRY_EXEC := "@TRYEXEC@"
  const BEFORE := "Exec="
  const AFTER := " service session-start"

  /** The template's `Exec` line once `render_autostart` has replaced both placeholders. */
  function RenderedExecLine(path: string): string {
    Replace(Replace(BEFORE + EXEC + AFTER, EXEC, ExecValue(path)), TRY_EXEC, DesktopString(path))
  }

  function IntendedExecLine(path: string): string {
    BEFORE + ExecValue(path) + AFTER
  }

  function Contains(s: string, pattern: string): bool {
    pattern <= s || (s != "" && Contains(s[1..], pattern))
  }

  lemma {:induction false} ReplaceSkips(a: string, s: string, pattern: string, to: string)
    requires pattern != "" && pattern[0] !in a
    ensures Replace(a + s, pattern, to) == a + Replace(s, pattern, to)
  {
    if a == "" {
      assert a + s == s && a + Replace(s, pattern, to) == Replace(s, pattern, to);
    } else {
      assert (a + s)[0] == a[0] && a[0] in a && (a + s)[1..] == a[1..] + s;
      ReplaceSkips(a[1..], s, pattern, to);
      assert [a[0]] + (a[1..] + Replace(s, pattern, to)) == a + Replace(s, pattern, to);
      if |a + s| < |pattern| {
        assert Replace(s, pattern, to) == s;
      }
    }
  }

  /** Replacing by something longer leaves a text alone exactly when there is nothing to replace. */
  lemma {:induction false} ReplaceChanges(s: string, pattern: string, to: string)
    requires pattern != ""
    ensures !Contains(s, pattern) ==> Replace(s, pattern, to) == s
    ensures |to| > |pattern| ==> |Replace(s, pattern, to)| >= |s|
    ensures |to| > |pattern| && Contains(s, pattern) ==> |Replace(s, pattern, to)| > |s|
    decreases |s|
  {
    if |s| >= |pattern| {
      if pattern <= s {
        ReplaceChanges(s[|pattern|..], pattern, to);
      } else {
        ReplaceChanges(s[1..], pattern, to);
      }
    } else {
      ShortContainsNothing(s, pattern);
    }
  }

  lemma {:induction false} ShortContainsNothing(s: string, pattern: string)
    requires |s| < |pattern|
    ensures !Contains(s, pattern)
  {
    if s != "" {
      ShortContainsNothing(s[1..], pattern);
    }
  }

  lemma {:induction false} ContainsSkips(a: string, s: string, pattern: string)
    requires pattern != "" && pattern[0] !in a
    ensures Contains(a + s, pattern) <==> Contains(s, pattern)
  {
    if a == "" {
      assert a + s == s;
    } else {
      assert (a + s)[0] == a[0] && a[0] in a && (a + s)[1..] == a[1..] + s;
      ContainsSkips(a[1..], s, pattern);
    }
  }

  /** What follows does not complete a pattern it has no character of. */
  lemma {:induction false} ContainsBefore(s: string, tail: string, pattern: string)
    requires pattern != "" && forall i | 0 <= i < |tail| :: tail[i] !in pattern
    ensures Contains(s + tail, pattern) <==> Contains(s, pattern)
  {
    if s == "" {
      assert s + tail == tail && tail + "" == tail;
      ShortContainsNothing(s, pattern);
      assert pattern[0] !in tail by {
        assert pattern[0] in pattern;
      }
      ContainsSkips(tail, "", pattern);
    } else {
      assert (s + tail)[1..] == s[1..] + tail;
      ContainsBefore(s[1..], tail, pattern);
      assert |s| < |pattern| ==> pattern[|s|] in pattern;
    }
  }

  /** Rewriting a character the pattern does not have makes no occurrence and breaks none. */
  lemma {:induction false} PrefixKept(s: string, c: char, to: string, pattern: string)
    requires c !in pattern && to != "" && to[0] !in pattern
    ensures pattern <= ReplaceChar(s, c, to) <==> pattern <= s
  {
    if s != "" && pattern != "" && s[0] != c {
      PrefixKept(s[1..], c, to, pattern[1..]);
      var rest := ReplaceChar(s[1..], c, to);
      assert ReplaceChar(s, c, to) == [s[0]] + rest;
      PrefixByParts(pattern, s);
      PrefixByParts(pattern, [s[0]] + rest);
      assert ([s[0]] + rest)[1..] == rest;
    } else if s != "" && pattern != "" {
      assert ReplaceChar(s, c, to)[0] == to[0];
      assert pattern[0] in pattern;
    }
  }

  lemma PrefixByParts(pattern: string, s: string)
    requires pattern != "" && s != ""
    ensures pattern <= s <==> pattern[0] == s[0] && pattern[1..] <= s[1..]
  {
    if pattern[0] == s[0] && pattern[1..] <= s[1..] {
      assert pattern == [pattern[0]] + pattern[1..] && s == [s[0]] + s[1..];
    }
  }

  lemma {:induction false} ReplaceCharKeeps(s: string, c: char, to: string, pattern: string)
    requires pattern != "" && c !in pattern && to != "" && to[0] !in pattern && pattern[0] !in to
    ensures Contains(ReplaceChar(s, c, to), pattern) <==> Contains(s, pattern)
  {
    if s != "" {
      PrefixKept(s, c, to, pattern);
      ReplaceCharKeeps(s[1..], c, to, pattern);
      var rest := ReplaceChar(s[1..], c, to);
      if s[0] == c {
        ContainsSkips(to, rest, pattern);
        assert !(pattern <= s) by {
          assert pattern[0] in pattern;
        }
      } else {
        assert ([s[0]] + rest)[1..] == rest;
      }
    }
  }

  lemma {:induction false} QuotedPrefixKept(s: string, pattern: string)
    requires forall c | c in ESCAPED :: c !in pattern
    ensures pattern <= QuoteEscaped(s) <==> pattern <= s
  {
    if s != "" && pattern != "" {
      assert pattern[0] in pattern;
      if s[0] !in ESCAPED {
        QuotedPrefixKept(s[1..], pattern[1..]);
        var rest := QuoteEscaped(s[1..]);
        PrefixByParts(pattern, s);
        PrefixByParts(pattern, [s[0]] + rest);
        assert ([s[0]] + rest)[1..] == rest;
      } else {
        assert QuoteEscaped(s)[0] == '\\' && '\\' in ESCAPED;
      }
    }
  }

  lemma {:induction false} QuoteEscapedKeeps(s: string, pattern: string)
    requires pattern != "" && forall c | c in ESCAPED :: c !in pattern
    ensures Contains(QuoteEscaped(s), pattern) <==> Contains(s, pattern)
  {
    if s != "" {
      QuotedPrefixKept(s, pattern);
      QuoteEscapedKeeps(s[1..], pattern);
      var rest := QuoteEscaped(s[1..]);
      assert pattern[0] in pattern;
      if s[0] in ESCAPED {
        assert '\\' in ESCAPED;
        ContainsSkips(['\\', s[0]], rest, pattern);
      } else {
        assert ([s[0]] + rest)[1..] == rest;
      }
    }
  }

  lemma PlaceholderChars()
    ensures TRY_EXEC[0] == '@' && '%' !in TRY_EXEC && '\\' !in TRY_EXEC && '"' !in TRY_EXEC
    ensures forall c | c in ESCAPED :: c !in TRY_EXEC
    ensures forall i | 0 <= i < |AFTER| :: AFTER[i] !in TRY_EXEC
    ensures EXEC != "" && EXEC[0] == '@' && '@' !in BEFORE && '@' !in AFTER && '@' !in "\""
  {
  }

  /** The written value has the placeholder exactly if the path has. */
  lemma ValueContains(path: string)
    ensures Contains(ExecValue(path), TRY_EXEC) <==> Contains(path, TRY_EXEC)
  {
    PlaceholderChars();
    var doubled := ReplaceChar(path, '%', "%%");
    ReplaceCharKeeps(path, '%', "%%", TRY_EXEC);
    ReplaceCharKeeps(ExecQuoted(path), '\\', "\\\\", TRY_EXEC);
    if HasReserved(doubled) {
      QuoteEscapedKeeps(doubled, TRY_EXEC);
      ContainsBefore(QuoteEscaped(doubled), "\"", TRY_EXEC);
      ContainsSkips("\"", QuoteEscaped(doubled) + "\"", TRY_EXEC);
      assert "\"" + QuoteEscaped(doubled) + "\"" == "\"" + (QuoteEscaped(doubled) + "\"");
    }
  }

  lemma {:induction false} DesktopStringGrows(s: string)
    ensures |DesktopString(s)| >= |s|
  {
    if s != "" {
      DesktopStringGrows(s[1..]);
    }
  }

  lemma {:induction false} ContainsIsShorter(s: string, pattern: string)
    requires Contains(s, pattern)
    ensures |pattern| <= |s|
  {
    if !(pattern <= s) {
      ContainsIsShorter(s[1..], pattern);
    }
  }

  /** The placeholders are replaced one after the other in the whole text, so the `Exec` line comes out as
      meant exactly when the path does not itself contain "@TRYEXEC@". */
  lemma ExecLineIsIntended(path: string)
    requires Acceptable(path)
    ensures RenderedExecLine(path) == IntendedExecLine(path) <==> !Contains(path, TRY_EXEC)
  {
    PlaceholderChars();
    FirstPlaceholder(path);
    ValueContains(path);
    ContainsBefore(BEFORE + ExecValue(path), AFTER, TRY_EXEC);
    ContainsSkips(BEFORE, ExecValue(path), TRY_EXEC);
    ReplaceChanges(IntendedExecLine(path), TRY_EXEC, DesktopString(path));
    if Contains(path, TRY_EXEC) {
      DesktopStringGrows(path);
      ContainsIsShorter(path[1..], TRY_EXEC);
    }
  }

  lemma FirstPlaceholder(path: string)
    ensures Replace(BEFORE + EXEC + AFTER, EXEC, ExecValue(path)) == IntendedExecLine(path)
  {
    PlaceholderChars();
    Fills(BEFORE, EXEC, AFTER, ExecValue(path));
  }

  /** A placeholder between texts without its first character is filled in once. */
  lemma {:induction false} Fills(a: string, pattern: string, b: string, to: string)
    requires pattern != "" && pattern[0] !in a && pattern[0] !in b
    ensures Replace(a + pattern + b, pattern, to) == a + to + b
  {
    assert a + pattern + b == a + (pattern + b);
    ReplaceSkips(a, pattern + b, pattern, to);
    assert (pattern + b)[|pattern|..] == b;
    ReplaceSkips(b, "", pattern, to);
    assert b + "" == b;
    assert a + (to + b) == a + to + b;
  }

  /** And here is one that does not. */
  lemma PlaceholderInPathBreaksLine()
    ensures Acceptable("/@TRYEXEC@") && RenderedExecLine("/@TRYEXEC@") != IntendedExecLine("/@TRYEXEC@")
  {
    var path := "/@TRYEXEC@";
    assert path[1..] == TRY_EXEC;
    assert Contains(path[1..], TRY_EXEC);
    ExecLineIsIntended(path);
  }
}
