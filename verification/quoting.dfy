/** Shell words: the hook command as written, and as a POSIX shell reads it back. */
module ShellQuoting {
  import opened Options

  predicate IsSafe(c: char) {
    'a' <= c <= 'z' || 'A' <= c <= 'Z' || '0' <= c <= '9' || c == '_' || c == '.' || c == '/' || c == '-'
  }

  predicate AllSafe(s: string) { forall c :: c in s ==> IsSafe(c) }

  /** strings.ReplaceAll(value, "'", "'\\''") */
  function Escaped(value: string): string {
    if value == [] then []
    else (if value[0] == '\'' then ['\'', '\\', '\'', '\''] else [value[0]]) + Escaped(value[1..])
  }

  function Quote(value: string): string { ['\''] + Escaped(value) + ['\''] }

  function Command(value: string): string { if AllSafe(value) then value else Quote(value) }

  method ShellCommand(value: string) returns (command: string)
    ensures command == Command(value)
  {
    for i := 0 to |value|
      invariant AllSafe(value[..i])
    {
      if !IsSafe(value[i]) {
        assert value[i] in value;
        return Quote(value);
      }
    }
    assert value[..|value|] == value;
    return value;
  }

  /** The characters that section 2.2 of the POSIX.1-2017 Shell Command Language wants quoted, always or in
      some places, other than the quotes, the backslash and the blanks. */
  predicate Special(c: char) {
    c in {'|', '&', ';', '<', '>', '(', ')', '$', '`', '\"', '\n', '*', '?', '[', '#', '~', '=', '%'}
  }

  /** Words as sections 2.2.1 and 2.2.2 of the POSIX.1-2017 Shell Command Language and token recognition
      by blanks give them, from inside or outside single quotes with part of a word read. None where
      quoting is left open and for every other character special to the shell. */
  function Words(s: string, quoted: bool, word: Option<string>): Option<seq<string>>
    decreases |s|
  {
    var read := if word.Some? then word.value else [];
    if s == [] then
      if quoted then None else Some(if word.Some? then [word.value] else [])
    else if quoted then
      if s[0] == '\'' then Words(s[1..], false, word) else Words(s[1..], true, Some(read + [s[0]]))
    else if s[0] == ' ' || s[0] == '\t' then
      var rest := Words(s[1..], false, None);
      if rest.None? then None else Some((if word.Some? then [word.value] else []) + rest.value)
    else if s[0] == '\'' then Words(s[1..], true, Some(read))
    else if s[0] == '\\' then
      if |s| == 1 then None
      else if s[1] == '\n' then Words(s[2..], false, word)
      else Words(s[2..], false, Some(read + [s[1]]))
    else if Special(s[0]) then None
    else Words(s[1..], false, Some(read + [s[0]]))
  }

  function Split(s: string): Option<seq<string>> { Words(s, false, None) }

  lemma {:induction false} SafeWord(p: string, word: Option<string>, rest: string)
    requires AllSafe(p) && p != []
    ensures Words(p + rest, false, word) == Words(rest, false, Some((if word.Some? then word.value else []) + p))
    decreases |p|
  {
    var read := if word.Some? then word.value else [];
    assert IsSafe(p[0]) && (p + rest)[1..] == p[1..] + rest;
    if |p| == 1 {
      assert p[1..] + rest == rest && read + p == read + [p[0]];
    } else {
      SafeWord(p[1..], Some(read + [p[0]]), rest);
      assert read + [p[0]] + p[1..] == read + p;
    }
  }

  lemma {:induction false} QuotedWord(p: string, read: string, rest: string)
    ensures Words(Escaped(p) + ['\''] + rest, true, Some(read)) == Words(rest, false, Some(read + p))
    decreases |p|
  {
    var tail := if p == [] then [] else Escaped(p[1..]) + ['\''] + rest;
    if p == [] {
      assert Escaped(p) + ['\''] + rest == ['\''] + rest;
      assert (['\''] + rest)[1..] == rest && read + p == read;
    } else if p[0] == '\'' {
      var all := ['\'', '\\', '\'', '\''] + tail;
      assert Escaped(p) + ['\''] + rest == all;
      Reopened(tail, read);
      QuotedWord(p[1..], read + [p[0]], rest);
      assert read + [p[0]] + p[1..] == read + p;
    } else {
      assert Escaped(p) + ['\''] + rest == [p[0]] + tail;
      assert ([p[0]] + tail)[1..] == tail;
      QuotedWord(p[1..], read + [p[0]], rest);
      assert read + [p[0]] + p[1..] == read + p;
    }
  }

  /** Closing, a quoted quote, and opening again. */
  lemma Reopened(tail: string, read: string)
    ensures Words(['\'', '\\', '\'', '\''] + tail, true, Some(read)) == Words(tail, true, Some(read + ['\'']))
  {
    var all := ['\'', '\\', '\'', '\''] + tail;
    assert all[1..] == ['\\', '\'', '\''] + tail;
    assert all[1..][2..] == ['\''] + tail;
    assert all[1..][2..][1..] == tail;
    assert Words(all[1..][2..], false, Some(read + ['\''])) == Words(tail, true, Some(read + ['\'']));
    assert Words(all[1..], false, Some(read)) == Words(all[1..][2..], false, Some(read + ['\'']));
  }

  lemma QuoteOpens(s: string)
    ensures Words(['\''] + s, false, None) == Words(s, true, Some([]))
  {
    assert (['\''] + s)[1..] == s;
  }

  lemma CommandWord(p: string, rest: string)
    requires p != []
    ensures Words(Command(p) + rest, false, None) == Words(rest, false, Some(p))
  {
    if AllSafe(p) {
      SafeWord(p, None, rest);
      assert [] + p == p;
    } else {
      hide Words, Escaped;
      assert Command(p) + rest == ['\''] + (Escaped(p) + ['\''] + rest);
      QuoteOpens(Escaped(p) + ['\''] + rest);
      QuotedWord(p, [], rest);
      assert [] + p == p;
    }
  }

  lemma BlankEndsWord(rest: string, word: Option<string>)
    requires Words(rest, false, None).Some?
    ensures Words([' '] + rest, false, word) ==
      Some((if word.Some? then [word.value] else []) + Words(rest, false, None).value)
  {
    assert ([' '] + rest)[1..] == rest;
  }

  lemma LastWord(p: string)
    requires AllSafe(p) && p != []
    ensures Words(p, false, None) == Some([p])
  {
    SafeWord(p, None, []);
    assert p + [] == p && [] + p == p;
    assert Words([], false, Some(p)) == Some([p]);
  }

  lemma HookWord(word: Option<string>)
    ensures Words(" hook", false, word) == Some((if word.Some? then [word.value] else []) + ["hook"])
  {
    hide Words;
    assert " hook" == [' '] + "hook";
    LastWord("hook");
    BlankEndsWord("hook", word);
  }

  /** The hook command is read back as the path and the word hook for every path but the empty one, which
      is not quoted and vanishes; the program's paths are absolute and so never empty. */
  lemma HookCommandSplits(p: string)
    ensures Split(Command(p) + " hook") == Some([p, "hook"]) <==> p != []
    ensures p == [] ==> Split(Command(p) + " hook") == Some(["hook"])
  {
    hide Words;
    if p == [] {
      HookWord(None);
      assert [] + ["hook"] == ["hook"];
      assert Command(p) + " hook" == " hook";
    } else {
      CommandWord(p, " hook");
      HookWord(Some(p));
      assert [p] + ["hook"] == [p, "hook"];
    }
  }

  /** So the hook commands of two agents differ, and uninstalling one leaves the other's. */
  lemma HookCommandsDiffer(p: string, q: string)
    requires p != q
    ensures Command(p) + " hook" != Command(q) + " hook"
  {
    HookCommandSplits(p);
    HookCommandSplits(q);
  }
}

/** Values of the host configuration: written by a shell script, read by the agent. */
module EnvQuoting {
  import opened Options

  const SPECIAL: seq<char> := ['\\', '"', '$', '`']

  /** One sed pass: a backslash before every c. */
  function Pass(s: string, c: char): string {
    if s == [] then [] else (if s[0] == c then ['\\', c] else [s[0]]) + Pass(s[1..], c)
  }

  function EnvQuote(s: string): string { Pass(Pass(Pass(Pass(s, '\\'), '"'), '$'), '`') }

  /** The value between the quotes, read back. */
  function Unescaped(s: string): Option<string> {
    if s == [] then Some([])
    else if s[0] != '\\' then
      var rest := Unescaped(s[1..]);
      if rest.None? then None else Some([s[0]] + rest.value)
    else if |s| == 1 || s[1] !in SPECIAL then None
    else
      var rest := Unescaped(s[2..]);
      if rest.None? then None else Some([s[1]] + rest.value)
  }

  function Unquoted(value: string): Option<string> {
    if |value| < 2 || value[0] != '"' || value[|value| - 1] != '"' then None
    else Unescaped(value[1..|value| - 1])
  }

  method UnquoteConfigValue(value: string) returns (result: Option<string>)
    ensures result == Unquoted(value)
  {
    if |value| < 2 || value[0] != '"' || value[|value| - 1] != '"' {
      return None;
    }
    var inner := value[1..|value| - 1];
    var read: string := [];
    var index := 0;
    assert inner[0..] == inner;
    PrefixedNothing(Unescaped(inner));
    while index < |inner|
      invariant 0 <= index <= |inner|
      invariant Unescaped(inner) == Prefixed(read, Unescaped(inner[index..]))
    {
      var character := inner[index];
      assert inner[index..][1..] == inner[index + 1..];
      PrefixedJoins(read, [character], Unescaped(inner[index + 1..]));
      if character != '\\' {
        read := read + [character];
        index := index + 1;
        continue;
      }
      index := index + 1;
      if index >= |inner| || inner[index] !in SPECIAL {
        return None;
      }
      assert inner[index - 1..][2..] == inner[index + 1..];
      PrefixedJoins(read, [inner[index]], Unescaped(inner[index + 1..]));
      read := read + [inner[index]];
      index := index + 1;
    }
    assert read + [] == read;
    return Some(read);
  }

  function Prefixed(read: string, rest: Option<string>): Option<string> {
    if rest.None? then None else Some(read + rest.value)
  }

  lemma PrefixedNothing(rest: Option<string>)
    ensures Prefixed([], rest) == rest
  {
    if rest.Some? {
      assert [] + rest.value == rest.value;
    }
  }

  lemma PrefixedJoins(a: string, b: string, rest: Option<string>)
    ensures Prefixed(a, Prefixed(b, rest)) == Prefixed(a + b, rest)
  {
    if rest.Some? {
      assert a + (b + rest.value) == (a + b) + rest.value;
    }
  }

  /** All four passes in one. */
  function Escape(s: string, special: seq<char>): string {
    if s == [] then [] else (if s[0] in special then ['\\', s[0]] else [s[0]]) + Escape(s[1..], special)
  }

  lemma {:induction false} PassJoins(a: string, b: string, c: char)
    ensures Pass(a + b, c) == Pass(a, c) + Pass(b, c)
  {
    if a == [] {
      assert a + b == b;
    } else {
      PassJoins(a[1..], b, c);
      assert (a + b)[1..] == a[1..] + b;
      var head := if a[0] == c then ['\\', c] else [a[0]];
      calc {
        Pass(a + b, c);
        head + (Pass(a[1..], c) + Pass(b, c));
        { hide Pass; assert head + (Pass(a[1..], c) + Pass(b, c)) == (head + Pass(a[1..], c)) + Pass(b, c); }
        Pass(a, c) + Pass(b, c);
      }
    }
  }

  /** A pass after others escapes one character more, as it never meets the backslashes they wrote. */
  lemma {:induction false} OnePassMore(s: string, before: seq<char>, c: char)
    requires c !in before && c != '\\'
    ensures Pass(Escape(s, before), c) == Escape(s, before + [c])
  {
    if s != [] {
      OnePassMore(s[1..], before, c);
      var head := if s[0] in before then ['\\', s[0]] else [s[0]];
      PassJoins(head, Escape(s[1..], before), c);
      assert head[1..] == if s[0] in before then [s[0]] else [];
      assert head[1..][|head| - 1..] == [];
      assert Pass(head, c) == if s[0] in before + [c] then ['\\', s[0]] else [s[0]];
    }
  }

  lemma {:induction false} FirstPass(s: string)
    ensures Pass(s, '\\') == Escape(s, ['\\'])
  {
    if s != [] {
      FirstPass(s[1..]);
    }
  }

  lemma FourPassesAreOne(s: string)
    ensures EnvQuote(s) == Escape(s, SPECIAL)
  {
    FirstPass(s);
    OnePassMore(s, ['\\'], '"');
    OnePassMore(s, ['\\'] + ['"'], '$');
    OnePassMore(s, ['\\'] + ['"'] + ['$'], '`');
    assert ['\\'] + ['"'] + ['$'] + ['`'] == SPECIAL;
  }

  lemma {:induction false} EscapedIsReadBack(s: string)
    ensures Unescaped(Escape(s, SPECIAL)) == Some(s)
  {
    if s != [] {
      EscapedIsReadBack(s[1..]);
      var rest := Escape(s[1..], SPECIAL);
      if s[0] in SPECIAL {
        assert Escape(s, SPECIAL)[2..] == rest;
      } else {
        assert Escape(s, SPECIAL)[1..] == rest;
      }
      assert [s[0]] + s[1..] == s;
    }
  }

  lemma QuotedIsReadBack(s: string)
    ensures Unquoted(['"'] + EnvQuote(s) + ['"']) == Some(s)
  {
    FourPassesAreOne(s);
    EscapedIsReadBack(s);
    var value := ['"'] + EnvQuote(s) + ['"'];
    assert value[1..|value| - 1] == EnvQuote(s);
  }

  // --- The line of the file ---

  /** Command substitution strips trailing newlines. */
  function TrimNewlines(s: string): string {
    if s != [] && s[|s| - 1] == '\n' then TrimNewlines(s[..|s| - 1]) else s
  }

  /** What the script writes after the name and the equals sign: the quoted value, then a newline. */
  function Written(s: string): string { ['"'] + TrimNewlines(EnvQuote(s)) + ['"'] + ['\n'] }

  function LineEnd(text: string): (n: nat)
    ensures n <= |text|
  {
    if text == [] || text[0] == '\n' then 0 else 1 + LineEnd(text[1..])
  }

  /** bufio.ScanLines: up to the newline, without a carriage return before it. */
  function FirstLine(text: string): string {
    var line := text[..LineEnd(text)];
    if line != [] && line[|line| - 1] == '\r' then line[..|line| - 1] else line
  }

  function ReadBack(s: string): Option<string> { Unquoted(FirstLine(Written(s))) }

  lemma {:induction false} EscapeJoins(a: string, b: string, special: seq<char>)
    ensures Escape(a + b, special) == Escape(a, special) + Escape(b, special)
  {
    if a == [] {
      assert a + b == b;
    } else {
      EscapeJoins(a[1..], b, special);
      assert (a + b)[1..] == a[1..] + b;
      var head := if a[0] in special then ['\\', a[0]] else [a[0]];
      assert head + (Escape(a[1..], special) + Escape(b, special)) == (head + Escape(a[1..], special)) + Escape(b, special);
    }
  }

  lemma OneEscaped(c: char)
    ensures Escape([c], SPECIAL) == if c in SPECIAL then ['\\', c] else [c]
  {
    assert [c][1..] == [];
  }

  lemma {:induction false} EscapeKeepsNewlines(s: string)
    ensures '\n' in Escape(s, SPECIAL) <==> '\n' in s
  {
    if s != [] {
      EscapeKeepsNewlines(s[1..]);
    }
  }

  lemma {:induction false} EscapeTrimmed(s: string)
    ensures TrimNewlines(Escape(s, SPECIAL)) == Escape(TrimNewlines(s), SPECIAL)
    ensures '\n' !in s ==> TrimNewlines(s) == s
    ensures '\n' in s && '\n' !in TrimNewlines(s) ==> TrimNewlines(s) != s
  {
    hide Escape;
    if s == [] {
      NothingEscaped();
    } else {
      var front, last := s[..|s| - 1], s[|s| - 1];
      assert s == front + [last];
      EscapeJoins(front, [last], SPECIAL);
      OneEscaped(last);
      if last == '\n' {
        assert Escape(s, SPECIAL)[..|Escape(s, SPECIAL)| - 1] == Escape(front, SPECIAL);
        EscapeTrimmed(front);
      }
    }
  }

  lemma NothingEscaped()
    ensures Escape([], SPECIAL) == [] && TrimNewlines([]) == []
  {
  }

  lemma {:induction false} LineEndsThere(a: string, b: string)
    requires '\n' !in a
    ensures LineEnd(a + ['\n'] + b) == |a|
  {
    var text := a + ['\n'] + b;
    if a != [] {
      LineEndsThere(a[1..], b);
      assert text[1..] == a[1..] + ['\n'] + b;
    }
  }

  /** A value cut off before its closing quote is never taken for a whole one. */
  lemma CutValueFails(q: string)
    ensures Unquoted(['"'] + Escape(q, SPECIAL)) == None
  {
    hide Escape, Unescaped;
    NothingEscaped();
    var e := Escape(q, SPECIAL);
    if q != [] && q[|q| - 1] == '"' {
      var front := q[..|q| - 1];
      assert q == front + ['"'];
      EscapeJoins(front, ['"'], SPECIAL);
      OneEscaped('"');
      assert (['"'] + e)[1..|['"'] + e| - 1] == Escape(front, SPECIAL) + ['\\'];
      DanglingFails(front);
    } else if q != [] {
      var front, last := q[..|q| - 1], q[|q| - 1];
      assert q == front + [last];
      EscapeJoins(front, [last], SPECIAL);
      OneEscaped(last);
    }
  }

  lemma {:induction false} DanglingFails(s: string)
    ensures Unescaped(Escape(s, SPECIAL) + ['\\']) == None
  {
    if s != [] {
      DanglingFails(s[1..]);
      var head := if s[0] in SPECIAL then ['\\', s[0]] else [s[0]];
      var rest := Escape(s[1..], SPECIAL) + ['\\'];
      assert Escape(s, SPECIAL) + ['\\'] == head + rest;
      assert (head + rest)[|head|..] == rest;
    }
  }

  /** The line of a value without newline is the quoted value. */
  lemma WholeLine(e: string)
    requires '\n' !in e
    ensures FirstLine(['"'] + e + ['"'] + ['\n']) == ['"'] + e + ['"']
  {
    var line := ['"'] + e + ['"'];
    LineEndsThere(line, []);
    assert line + ['\n'] + [] == line + ['\n'];
    assert (line + ['\n'])[..|line|] == line;
  }

  /** The first line of a value with a newline ends before the closing quote. */
  lemma CutLine(q: string, rest: string)
    requires '\n' !in q
    ensures Unquoted(FirstLine(['"'] + Escape(q, SPECIAL) + ['\n'] + rest)) == None
  {
    hide Unquoted, Escape, LineEnd;
    var e := Escape(q, SPECIAL);
    EscapeKeepsNewlines(q);
    LineEndsThere(['"'] + e, rest);
    var text := ['"'] + e + ['\n'] + rest;
    assert text[..|['"'] + e|] == ['"'] + e;
    if q != [] && q[|q| - 1] == '\r' {
      var front := q[..|q| - 1];
      assert q == front + ['\r'];
      EscapeJoins(front, ['\r'], SPECIAL);
      OneEscaped('\r');
      assert (['"'] + e)[..|e|] == ['"'] + Escape(front, SPECIAL);
      CutValueFails(front);
    } else {
      LastEscaped(q);
      CutValueFails(q);
    }
  }

  lemma LastEscaped(q: string)
    requires q == [] || q[|q| - 1] != '\r'
    ensures var e := ['"'] + Escape(q, SPECIAL); e[|e| - 1] != '\r'
  {
    if q != [] {
      var front, last := q[..|q| - 1], q[|q| - 1];
      assert q == front + [last];
      EscapeJoins(front, [last], SPECIAL);
      OneEscaped(last);
    }
  }

  lemma {:induction false} FirstNewline(s: string) returns (q: string, rest: string)
    requires '\n' in s
    ensures '\n' !in q && s == q + ['\n'] + rest
  {
    if s[0] == '\n' {
      q, rest := [], s[1..];
    } else {
      var front;
      front, rest := FirstNewline(s[1..]);
      q := [s[0]] + front;
    }
  }

  /** The agent reads back what the script wrote exactly when the value has no newline: a trailing one is
      stripped on writing, and at any other the reader sees an unfinished line and fails. */
  lemma ReadBackExactly(s: string)
    ensures ReadBack(s) == Some(s) <==> '\n' !in s
    ensures '\n' in TrimNewlines(s) ==> ReadBack(s) == None
  {
    hide Unquoted, Escape, FirstLine, TrimNewlines, EnvQuote;
    var t := TrimNewlines(s);
    FourPassesAreOne(s);
    FourPassesAreOne(t);
    EscapeTrimmed(s);
    EscapeKeepsNewlines(t);
    if '\n' !in t {
      WholeLine(EnvQuote(t));
      QuotedIsReadBack(t);
    } else {
      var q, rest := FirstNewline(t);
      EscapeJoins(q + ['\n'], rest, SPECIAL);
      EscapeJoins(q, ['\n'], SPECIAL);
      OneEscaped('\n');
      var more := Escape(rest, SPECIAL) + ['"'] + ['\n'];
      assert Written(s) == ['"'] + Escape(q, SPECIAL) + ['\n'] + more;
      CutLine(q, more);
    }
  }
}
