/** Display text: what `DisplayText` keeps of a string supplied by a remote agent.

    A Go string that came out of the JSON decoder is valid UTF-8, so it is a
    sequence of Unicode scalar values; lengths in bytes are computed from it. */
module Text {

  /** Bytes of one scalar value in UTF-8. */
  function RuneLen(c: char): nat {
    if c as int < 0x80 then 1 else if c as int < 0x800 then 2 else if c as int < 0x1_0000 then 3 else 4
  }

  /** Bytes of one scalar value inside a JSON string written by encoding/json:
      the escapes of section 7 of RFC 8259 plus Go's HTML and line-separator escapes. */
  function EscapedLen(c: char): nat {
    if c == '\"' || c == '\\' then 2
    else if c as int in {0x08, 0x09, 0x0A, 0x0C, 0x0D} then 2
    else if c as int < 0x20 || c == '<' || c == '>' || c == '&' || c as int in {0x2028, 0x2029} then 6
    else RuneLen(c)
  }

  function Weigh(s: string, weight: char -> nat): nat {
    if s == "" then 0 else weight(s[0]) + Weigh(s[1..], weight)
  }

  function Bytes(s: string): nat { Weigh(s, RuneLen) }

  /** Length of the JSON string literal for s, quotes included. */
  function QuotedLen(s: string): nat { 2 + Weigh(s, EscapedLen) }

  /** unicode.IsSpace */
  predicate IsSpace(c: char) {
    var n := c as int;
    0x09 <= n <= 0x0D || n in {0x20, 0x85, 0xA0, 0x1680, 0x2028, 0x2029, 0x202F, 0x205F, 0x3000} || 0x2000 <= n <= 0x200A
  }

  /** unicode.IsControl */
  predicate IsControl(c: char) { c as int < 0x20 || 0x7F <= c as int < 0xA0 }

  /** unicode.Cf */
  predicate IsFormat(c: char) {
    var n := c as int;
    n in {0xAD, 0x61C, 0x6DD, 0x70F, 0x8E2, 0x180E, 0xFEFF, 0x110BD, 0x110CD, 0xE0001}
    || 0x600 <= n <= 0x605 || 0x890 <= n <= 0x891 || 0x200B <= n <= 0x200F || 0x202A <= n <= 0x202E
    || 0x2060 <= n <= 0x2064 || 0x2066 <= n <= 0x206F || 0xFFF9 <= n <= 0xFFFB || 0x13430 <= n <= 0x1343F
    || 0x1BCA0 <= n <= 0x1BCA3 || 0x1D173 <= n <= 0x1D17A || 0xE0020 <= n <= 0xE007F
  }

  predicate Dropped(c: char) { IsControl(c) || IsFormat(c) }

  /** Number of leading characters that are not white space. */
  function WordLen(s: string): (n: nat)
    ensures n <= |s|
    ensures forall i :: 0 <= i < n ==> !IsSpace(s[i])
    ensures n < |s| ==> IsSpace(s[n])
  {
    if s == "" || IsSpace(s[0]) then 0 else 1 + WordLen(s[1..])
  }

  /** strings.Fields */
  function Fields(s: string): seq<string> {
    if s == "" then []
    else if IsSpace(s[0]) then Fields(s[1..])
    else [s[..WordLen(s)]] + Fields(s[WordLen(s)..])
  }

  /** strings.Join(words, " ") */
  function Join(words: seq<string>): string {
    if |words| == 0 then "" else if |words| == 1 then words[0] else words[0] + " " + Join(words[1..])
  }

  function Collapse(s: string): string { Join(Fields(s)) }

  /** The loop of DisplayText: skip dropped characters, stop at the first one that does not fit. */
  function Fitting(s: string, room: nat): string {
    if s == "" then ""
    else if Dropped(s[0]) then Fitting(s[1..], room)
    else if RuneLen(s[0]) > room then ""
    else [s[0]] + Fitting(s[1..], room - RuneLen(s[0]))
  }

  function TrimLeft(s: string): string {
    if s != "" && IsSpace(s[0]) then TrimLeft(s[1..]) else s
  }

  function TrimRight(s: string): string {
    if s != "" && IsSpace(s[|s| - 1]) then TrimRight(s[..|s| - 1]) else s
  }

  /** strings.TrimSpace */
  function Trim(s: string): string { TrimRight(TrimLeft(s)) }

  function Display(value: string, maxBytes: nat): string {
    Trim(Fitting(Collapse(value), maxBytes))
  }

  method DisplayText(value: string, maxBytes: nat) returns (text: string)
    ensures text == Display(value, maxBytes)
  {
    var out, used := "", 0;
    var joined := Join(Fields(value));
    var i := 0;
    while i < |joined|
      invariant 0 <= i <= |joined| && used <= maxBytes
      invariant Fitting(joined, maxBytes) == out + Fitting(joined[i..], maxBytes - used)
    {
      var r := joined[i];
      assert joined[i..][0] == r && joined[i..][1..] == joined[i + 1..];
      i := i + 1;
      if IsControl(r) || IsFormat(r) {
        continue;
      }
      if used + RuneLen(r) > maxBytes {
        assert out + "" == out;
        return Trim(out);
      }
      out, used := out + [r], used + RuneLen(r);
    }
    assert joined[i..] == "" && out + "" == out;
    text := Trim(out);
  }

  // --- What the output looks like ---

  /** No control or format character. */
  predicate Printable(s: string) { forall i :: 0 <= i < |s| ==> !Dropped(s[i]) }

  /** Words separated by single blanks, none at either end. */
  predicate Spaced(s: string) {
    forall i :: 0 <= i < |s| && IsSpace(s[i]) ==> s[i] == ' ' && 0 < i < |s| - 1 && !IsSpace(s[i + 1])
  }

  /** The form that DisplayText leaves alone. */
  predicate Canonical(s: string) { Printable(s) && Spaced(s) }

  predicate Words(words: seq<string>) {
    forall k :: 0 <= k < |words| ==> words[k] != "" && forall i :: 0 <= i < |words[k]| ==> !IsSpace(words[k][i])
  }

  lemma {:induction false} WeighConcat(a: string, b: string, weight: char -> nat)
    ensures Weigh(a + b, weight) == Weigh(a, weight) + Weigh(b, weight)
  {
    if a == "" {
      assert a + b == b;
    } else {
      assert (a + b)[0] == a[0] && (a + b)[1..] == a[1..] + b;
      WeighConcat(a[1..], b, weight);
    }
  }

  lemma {:induction false} AsciiBytes(s: string)
    requires forall i :: 0 <= i < |s| ==> s[i] as int < 0x80
    ensures Bytes(s) == |s|
  {
    if s != "" {
      AsciiBytes(s[1..]);
    }
  }

  lemma {:induction false} FieldsAreWords(s: string)
    ensures Words(Fields(s))
    ensures Printable(s) ==> forall k :: 0 <= k < |Fields(s)| ==> Printable(Fields(s)[k])
    decreases |s|
  {
    if s == "" {
    } else if IsSpace(s[0]) {
      FieldsAreWords(s[1..]);
    } else {
      FieldsAreWords(s[WordLen(s)..]);
    }
  }

  lemma {:induction false} JoinIsSpaced(words: seq<string>)
    requires Words(words)
    ensures Spaced(Join(words))
    ensures |words| > 0 ==> Join(words) != "" && !IsSpace(Join(words)[0])
    ensures (forall k :: 0 <= k < |words| ==> Printable(words[k])) ==> Printable(Join(words))
  {
    if |words| > 1 {
      JoinIsSpaced(words[1..]);
      var head, tail := words[0] + " ", Join(words[1..]);
      assert Join(words) == head + tail;
      forall i | 0 <= i < |head + tail| && IsSpace((head + tail)[i])
        ensures (head + tail)[i] == ' ' && 0 < i < |head + tail| - 1 && !IsSpace((head + tail)[i + 1])
      {
        if i >= |head| {
          assert (head + tail)[i] == tail[i - |head|];
        }
      }
    }
  }

  lemma CollapseIsSpaced(s: string)
    ensures Spaced(Collapse(s))
    ensures Printable(s) ==> Canonical(Collapse(s))
  {
    FieldsAreWords(s);
    JoinIsSpaced(Fields(s));
  }

  lemma FieldsOfWord(word: string, rest: string)
    requires word != "" && forall i :: 0 <= i < |word| ==> !IsSpace(word[i])
    requires rest == "" || IsSpace(rest[0])
    ensures Fields(word + rest) == [word] + Fields(rest)
  {
    var s := word + rest;
    assert forall i :: 0 <= i < |word| ==> s[i] == word[i];
    assert rest != "" ==> s[|word|] == rest[0];
    assert WordLen(s) == |word|;
    assert s[..|word|] == word && s[|word|..] == rest;
  }

  lemma JoinCons(word: string, words: seq<string>)
    requires words != []
    ensures Join([word] + words) == word + " " + Join(words)
  {
    assert ([word] + words)[1..] == words;
  }

  lemma SpacedTail(s: string, n: nat)
    requires Spaced(s) && n < |s| && IsSpace(s[n])
    ensures s == s[..n] + " " + s[n + 1..] && s[n + 1..] != "" && Spaced(s[n + 1..])
    ensures IsSpace(s[n..][0]) && s[n..][1..] == s[n + 1..]
  {
    var tail := s[n + 1..];
    assert forall i :: 0 <= i < |tail| ==> tail[i] == s[n + 1 + i];
  }

  lemma CollapseStep(word: string, rest: string, tail: string)
    requires word != "" && forall i :: 0 <= i < |word| ==> !IsSpace(word[i])
    requires rest != "" && IsSpace(rest[0]) && rest[1..] == tail && Fields(tail) != []
    ensures Collapse(word + rest) == word + " " + Collapse(tail)
    ensures Fields(word + rest) != []
  {
    FieldsOfWord(word, rest);
    JoinCons(word, Fields(tail));
  }

  lemma {:induction false} CollapseFixed(s: string)
    requires Spaced(s)
    ensures Collapse(s) == s
    ensures s != "" ==> Fields(s) != []
    decreases |s|
  {
    if s != "" {
      var n := WordLen(s);
      assert s[..n] + s[n..] == s;
      if n == |s| {
        FieldsOfWord(s, "");
        assert s + "" == s;
      } else {
        SpacedTail(s, n);
        CollapseFixed(s[n + 1..]);
        CollapseStep(s[..n], s[n..], s[n + 1..]);
      }
    }
  }

  lemma {:induction false} FittingFacts(s: string, room: nat)
    ensures Printable(Fitting(s, room))
    ensures Bytes(Fitting(s, room)) <= room
    ensures Printable(s) ==> Fitting(s, room) <= s
    ensures Printable(s) && Bytes(s) <= room ==> Fitting(s, room) == s
  {
    if s != "" {
      if Dropped(s[0]) {
        FittingFacts(s[1..], room);
      } else if RuneLen(s[0]) <= room {
        FittingFacts(s[1..], room - RuneLen(s[0]));
        var t := Fitting(s[1..], room - RuneLen(s[0]));
        assert ([s[0]] + t)[1..] == t;
        assert s == [s[0]] + s[1..];
      }
    }
  }

  lemma {:induction false} TrimRightFacts(s: string)
    ensures TrimRight(s) <= s
    ensures TrimRight(s) == "" || !IsSpace(TrimRight(s)[|TrimRight(s)| - 1])
    ensures Bytes(TrimRight(s)) <= Bytes(s)
  {
    if s != "" && IsSpace(s[|s| - 1]) {
      TrimRightFacts(s[..|s| - 1]);
      assert s == s[..|s| - 1] + s[|s| - 1..];
      WeighConcat(s[..|s| - 1], s[|s| - 1..], RuneLen);
    }
  }

  lemma {:induction false} TrimRightLeavesBlanks(s: string)
    ensures forall i :: |TrimRight(s)| <= i < |s| ==> IsSpace(s[i])
  {
    if s != "" && IsSpace(s[|s| - 1]) {
      TrimRightLeavesBlanks(s[..|s| - 1]);
      TrimRightFacts(s[..|s| - 1]);
    }
  }

  lemma {:induction false} TrimLeftFacts(s: string)
    ensures exists k :: 0 <= k <= |s| && TrimLeft(s) == s[k..]
    ensures Bytes(TrimLeft(s)) <= Bytes(s)
  {
    if s != "" && IsSpace(s[0]) {
      TrimLeftFacts(s[1..]);
      var k :| 0 <= k <= |s[1..]| && TrimLeft(s[1..]) == s[1..][k..];
      assert s[1..][k..] == s[k + 1..];
    } else {
      assert s[0..] == s;
    }
  }

  lemma TrimFacts(s: string)
    ensures Printable(s) ==> Printable(Trim(s))
    ensures Bytes(Trim(s)) <= Bytes(s)
  {
    TrimLeftFacts(s);
    TrimRightFacts(TrimLeft(s));
  }

  /** A prefix of a spaced text, trimmed, is spaced. */
  lemma TrimmedPrefix(p: string, s: string)
    requires Spaced(s) && p <= s
    ensures Spaced(Trim(p))
    ensures Trim(p) <= s
  {
    assert p != "" ==> p[0] == s[0];
    assert TrimLeft(p) == p;
    TrimRightFacts(p);
    var t := TrimRight(p);
    forall i | 0 <= i < |t| && IsSpace(t[i])
      ensures t[i] == ' ' && 0 < i < |t| - 1 && !IsSpace(t[i + 1])
    {
      assert t[i] == s[i];
      assert i < |t| - 1;
      assert t[i + 1] == s[i + 1];
    }
  }

  lemma SpacedTrimmed(s: string)
    requires Spaced(s)
    ensures Trim(s) == s
  {
  }

  // --- Main facts ---

  /** The output is bounded in bytes and free of control and format characters, for every input. */
  lemma DisplayIsPrintable(value: string, maxBytes: nat)
    ensures Printable(Display(value, maxBytes))
    ensures Bytes(Display(value, maxBytes)) <= maxBytes
  {
    FittingFacts(Collapse(value), maxBytes);
    TrimFacts(Fitting(Collapse(value), maxBytes));
  }

  /** On printable text the output is canonical, whatever the limit cuts off. */
  lemma DisplayCanonicalizes(value: string, maxBytes: nat)
    requires Printable(value)
    ensures Canonical(Display(value, maxBytes))
  {
    CollapseIsSpaced(value);
    FittingFacts(Collapse(value), maxBytes);
    TrimmedPrefix(Fitting(Collapse(value), maxBytes), Collapse(value));
    SpacedTrimmed(Collapse(value));
  }

  /** Fixed points: exactly the canonical texts within the limit. */
  lemma DisplayFixed(value: string, maxBytes: nat)
    ensures Display(value, maxBytes) == value <==> Canonical(value) && Bytes(value) <= maxBytes
  {
    if Canonical(value) && Bytes(value) <= maxBytes {
      CollapseFixed(value);
      FittingFacts(value, maxBytes);
      SpacedTrimmed(value);
    }
    if Display(value, maxBytes) == value {
      DisplayIsPrintable(value, maxBytes);
      DisplayCanonicalizes(value, maxBytes);
    }
  }

  /** t is what is left of s in n bytes: as many whole characters as fit, without a blank at the end. */
  ghost predicate IsCut(t: string, s: string, n: nat) {
    exists k :: LongestWithin(s, k, n) && |t| <= k && t == s[..|t|]
      && (t == "" || t[|t| - 1] != ' ') && forall i :: |t| <= i < k ==> s[i] == ' '
  }

  /** The first k characters fit in n bytes, and one more does not. */
  predicate LongestWithin(s: string, k: nat, n: nat) {
    k <= |s| && Bytes(s[..k]) <= n && (k < |s| ==> Bytes(s[..k + 1]) > n)
  }

  lemma {:induction false} FittingIsLongest(s: string, room: nat)
    requires Printable(s)
    ensures Fitting(s, room) <= s && LongestWithin(s, |Fitting(s, room)|, room)
  {
    if s != "" {
      var rest := s[1..];
      var first := s[..1];
      assert first[0] == s[0] && first[1..] == "";
      assert Bytes(first) == RuneLen(s[0]) + Bytes(first[1..]);
      if RuneLen(s[0]) <= room {
        var t := Fitting(rest, room - RuneLen(s[0]));
        FittingIsLongest(rest, room - RuneLen(s[0]));
        BytesOfPrefix(s, |t|);
        if |t| < |rest| {
          BytesOfPrefix(s, |t| + 1);
        }
      }
    }
  }

  lemma BytesOfPrefix(s: string, k: nat)
    requires k < |s|
    ensures Bytes(s[..k + 1]) == RuneLen(s[0]) + Bytes(s[1..][..k])
  {
    assert s[..k + 1][0] == s[0] && s[..k + 1][1..] == s[1..][..k];
  }

  /** A canonical text is cut at the last whole character that fits. */
  lemma DisplayIsCut(s: string, n: nat)
    requires Canonical(s)
    ensures IsCut(Display(s, n), s, n)
  {
    CollapseFixed(s);
    FittingIsLongest(s, n);
    var p := Fitting(s, n);
    hide Fitting, Collapse, Bytes;
    assert p != "" ==> p[0] == s[0];
    assert TrimLeft(p) == p;
    TrimRightFacts(p);
    TrimRightLeavesBlanks(p);
    hide TrimLeft, TrimRight;
    assert forall i :: 0 <= i < |p| ==> p[i] == s[i];
  }

  /** Two passes reach the fixed point, even with different limits. */
  lemma DisplayTwiceIsFixed(value: string, first: nat, second: nat)
    ensures var twice := Display(Display(value, first), second);
            Canonical(twice) && Bytes(twice) <= second && Display(twice, second) == twice
  {
    var once := Display(value, first);
    DisplayIsPrintable(value, first);
    DisplayCanonicalizes(once, second);
    DisplayIsPrintable(once, second);
    DisplayFixed(Display(once, second), second);
  }

  // --- When one pass is enough ---

  /** The characters that are not dropped. */
  function Kept(s: string): string {
    if s == "" then "" else (if Dropped(s[0]) then "" else [s[0]]) + Kept(s[1..])
  }

  predicate Vanishes(word: string) { forall i :: 0 <= i < |word| ==> Dropped(word[i]) }

  /** Bytes kept of the first k words, with a blank after each. */
  function BytesBefore(words: seq<string>, k: nat): nat
    requires k <= |words|
  {
    if k == 0 then 0 else Bytes(Kept(words[0])) + 1 + BytesBefore(words[1..], k - 1)
  }

  /** Something of word k is kept: it does not vanish, and its first character left fits. */
  predicate Shows(words: seq<string>, k: nat, room: int)
    requires k < |words|
  {
    Kept(words[k]) != "" && BytesBefore(words, k) + RuneLen(Kept(words[k])[0]) <= room
  }

  /** A word vanishes before one that shows. */
  ghost predicate GapBefore(words: seq<string>, room: int) {
    exists j, k :: 0 <= j < k < |words| && Vanishes(words[j]) && Shows(words, k, room)
  }

  /** A word vanishes between one that does not and one that shows. */
  ghost predicate Gap(words: seq<string>, room: int) {
    exists i, j, k :: 0 <= i < j < k < |words| && !Vanishes(words[i]) && Vanishes(words[j]) && Shows(words, k, room)
  }

  lemma {:induction false} KeptFacts(s: string)
    ensures Kept(s) == "" <==> Vanishes(s)
    ensures (forall i :: 0 <= i < |s| ==> !IsSpace(s[i])) ==> forall i :: 0 <= i < |Kept(s)| ==> !IsSpace(Kept(s)[i])
  {
    if s != "" {
      KeptFacts(s[1..]);
      assert Vanishes(s) <==> Dropped(s[0]) && Vanishes(s[1..]) by {
        if Dropped(s[0]) && Vanishes(s[1..]) {
          assert forall i :: 0 < i < |s| ==> s[i] == s[1..][i - 1];
        }
        if Vanishes(s) {
          assert forall i :: 0 <= i < |s[1..]| ==> s[1..][i] == s[i + 1];
        }
      }
    }
  }

  lemma KeptFirst(c: char, kept: string, more: string)
    ensures [c] + (kept + more) == ([c] + kept) + more
  {
  }

  /** The loop over a concatenation: all of the first part and what fits of the second, or what fits of the first. */
  lemma {:induction false} FittingJoins(a: string, b: string, room: nat)
    ensures Bytes(Kept(a)) <= room ==> Fitting(a + b, room) == Kept(a) + Fitting(b, room - Bytes(Kept(a)))
    ensures Bytes(Kept(a)) > room ==> Fitting(a + b, room) == Fitting(a, room)
  {
    if a == "" {
      assert a + b == b;
    } else {
      assert (a + b)[0] == a[0] && (a + b)[1..] == a[1..] + b;
      KeptStep(a);
      if Dropped(a[0]) {
        FittingJoins(a[1..], b, room);
      } else if RuneLen(a[0]) <= room {
        FittingJoins(a[1..], b, room - RuneLen(a[0]));
        if Bytes(Kept(a)) <= room {
          KeptFirst(a[0], Kept(a[1..]), Fitting(b, room - Bytes(Kept(a))));
        }
      }
    }
  }

  lemma KeptStep(s: string)
    requires s != ""
    ensures Dropped(s[0]) ==> Kept(s) == Kept(s[1..])
    ensures !Dropped(s[0]) ==> Kept(s) == [s[0]] + Kept(s[1..]) && Bytes(Kept(s)) == RuneLen(s[0]) + Bytes(Kept(s[1..]))
  {
    if !Dropped(s[0]) {
      assert Kept(s)[1..] == Kept(s[1..]);
    }
  }

  lemma {:induction false} FittingIsKept(s: string, room: nat)
    ensures Fitting(s, room) <= Kept(s)
    ensures Kept(s) != "" ==> (Fitting(s, room) != "" <==> RuneLen(Kept(s)[0]) <= room)
  {
    if s != "" {
      KeptStep(s);
      if Dropped(s[0]) {
        FittingIsKept(s[1..], room);
      } else if RuneLen(s[0]) <= room {
        FittingIsKept(s[1..], room - RuneLen(s[0]));
      }
    }
  }

  /** What the loop makes of the words, joined. */
  function Laid(words: seq<string>, room: int): string { if room < 0 then "" else Fitting(Join(words), room) }

  predicate Visible(s: string) { exists i :: 0 <= i < |s| && !IsSpace(s[i]) }

  /** Two blanks in a row before something visible. */
  predicate Broken(s: string) {
    exists b, c :: 0 <= b && b + 1 < c < |s| && IsSpace(s[b]) && IsSpace(s[b + 1]) && !IsSpace(s[c])
  }

  /** Word by word: all of the first word, a blank and the rest, or what fits of the first word. */
  lemma LaidStep(words: seq<string>, room: nat)
    requires |words| > 1
    ensures var rest := room - Bytes(Kept(words[0])) - 1;
      Laid(words, room) ==
        if rest >= 0 then Kept(words[0]) + " " + Laid(words[1..], rest)
        else Fitting(words[0], room)
  {
    hide Kept, Fitting, Bytes;
    var word, tail := words[0], " " + Join(words[1..]);
    assert Join(words) == word + tail;
    FittingJoins(word, tail, room);
    var left := room - Bytes(Kept(word));
    if left >= 0 {
      BlankFits(Join(words[1..]), left);
      if left == 0 {
        FittingJoins(word, "", room);
        NothingIsKept();
        assert word + "" == word && Kept(word) + "" == Kept(word);
      } else {
        var laid := Fitting(Join(words[1..]), left - 1);
        assert Kept(word) + (" " + laid) == Kept(word) + " " + laid;
      }
    }
  }

  lemma BlankFits(s: string, room: nat)
    ensures Fitting(" " + s, room) == if room == 0 then "" else " " + Fitting(s, room - 1)
  {
    assert (" " + s)[1..] == s;
  }

  lemma NothingIsKept()
    ensures Fitting("", 0) == ""
  {
  }

  lemma {:induction false} FittingChars(s: string, room: nat)
    ensures forall c :: c in Fitting(s, room) ==> c in s
  {
    if s != "" {
      FittingChars(s[1..], if !Dropped(s[0]) && RuneLen(s[0]) <= room then room - RuneLen(s[0]) else room);
    }
  }

  lemma ShowsLater(words: seq<string>, k: nat, room: int)
    requires 0 < k < |words|
    ensures Shows(words, k, room) <==> Shows(words[1..], k - 1, room - Bytes(Kept(words[0])) - 1)
    ensures Shows(words, k, room) ==> room > Bytes(Kept(words[0])) + 1
  {
  }

  lemma FirstWordShows(word: string, room: nat)
    requires forall i :: 0 <= i < |word| ==> !IsSpace(word[i])
    ensures Visible(Fitting(word, room)) <==> Kept(word) != "" && RuneLen(Kept(word)[0]) <= room
    ensures forall i :: 0 <= i < |Fitting(word, room)| ==> !IsSpace(Fitting(word, room)[i])
    ensures Vanishes(word) <==> Kept(word) == ""
  {
    KeptFacts(word);
    FittingIsKept(word, room);
  }

  ghost predicate AnyShows(words: seq<string>, room: int) { exists k :: 0 <= k < |words| && Shows(words, k, room) }

  lemma AnyShowsStep(words: seq<string>, room: int)
    requires words != []
    ensures var rest := room - Bytes(Kept(words[0])) - 1;
      AnyShows(words, room) <==> Shows(words, 0, room) || AnyShows(words[1..], rest)
    ensures room < Bytes(Kept(words[0])) + 1 ==> !AnyShows(words[1..], room - Bytes(Kept(words[0])) - 1)
  {
    hide Shows;
    var tail, rest := words[1..], room - Bytes(Kept(words[0])) - 1;
    forall k | 0 < k < |words|
      ensures Shows(words, k, room) <==> Shows(tail, k - 1, rest)
      ensures Shows(words, k, room) ==> rest > 0
    {
      ShowsLater(words, k, room);
    }
    if k :| 0 <= k < |tail| && Shows(tail, k, rest) {
      assert Shows(words, k + 1, room);
    }
  }

  lemma VisibleJoins(a: string, b: string)
    ensures Visible(a + " " + b) <==> Visible(a) || Visible(b)
  {
    var s := a + " " + b;
    if i :| 0 <= i < |a| && !IsSpace(a[i]) {
      assert s[i] == a[i];
    }
    if i :| 0 <= i < |b| && !IsSpace(b[i]) {
      assert s[|a| + 1 + i] == b[i];
    }
    if i :| 0 <= i < |s| && !IsSpace(s[i]) {
      assert i != |a|;
      assert if i < |a| then s[i] == a[i] else s[i] == b[i - |a| - 1];
    }
  }

  lemma {:induction false} VisibleLaid(words: seq<string>, room: int)
    requires Words(words)
    ensures Visible(Laid(words, room)) <==> AnyShows(words, room)
  {
    if words != [] && room >= 0 {
      hide Kept, Fitting, BytesBefore, AnyShows, Visible;
      var word, rest := words[0], room - Bytes(Kept(words[0])) - 1;
      FirstWordShows(word, room);
      NothingBefore(words);
      AnyShowsStep(words, room);
      if |words| > 1 {
        LaidStep(words, room);
        VisibleLaid(words[1..], rest);
        VisibleJoins(Kept(word), Laid(words[1..], rest));
        KeptIsVisible(word, room);
      } else {
        NoWordShows(rest);
        assert words[1..] == [];
      }
    } else {
      NoWordShows(room);
      NoRoom(words, room);
    }
  }

  lemma KeptIsVisible(word: string, room: nat)
    requires forall i :: 0 <= i < |word| ==> !IsSpace(word[i])
    ensures Visible(Kept(word)) <==> Kept(word) != ""
    ensures Kept(word) != "" && Bytes(Kept(word)) <= room ==> RuneLen(Kept(word)[0]) <= room
  {
    hide Kept, IsSpace, RuneLen;
    KeptFacts(word);
    var k := Kept(word);
    assert k != "" ==> Bytes(k) == RuneLen(k[0]) + Bytes(k[1..]);
  }

  lemma NoWordShows(room: int)
    ensures !AnyShows([], room)
  {
  }

  lemma NoRoom(words: seq<string>, room: int)
    ensures words == [] ==> !Visible(Laid(words, room))
    ensures room < 0 ==> !AnyShows(words, room) && !Visible(Laid(words, room))
  {
  }

  lemma NothingBefore(words: seq<string>)
    requires words != []
    ensures BytesBefore(words, 0) == 0
  {
  }

  lemma GapBeforeStep(words: seq<string>, room: int)
    requires words != []
    ensures var tail, rest := words[1..], room - Bytes(Kept(words[0])) - 1;
      GapBefore(words, room) <==> (Vanishes(words[0]) && AnyShows(tail, rest)) || GapBefore(tail, rest)
  {
    hide Shows, Vanishes;
    var tail, rest := words[1..], room - Bytes(Kept(words[0])) - 1;
    forall k | 0 < k < |words|
      ensures Shows(words, k, room) <==> Shows(tail, k - 1, rest)
    {
      ShowsLater(words, k, room);
    }
    if k :| 0 <= k < |tail| && Vanishes(words[0]) && Shows(tail, k, rest) {
      assert Shows(words, k + 1, room);
    }
    if j, k :| 0 <= j < k < |tail| && Vanishes(tail[j]) && Shows(tail, k, rest) {
      assert Vanishes(words[j + 1]) && Shows(words, k + 1, room);
    }
    if j, k :| 0 <= j < k < |words| && Vanishes(words[j]) && Shows(words, k, room) {
      assert Shows(tail, k - 1, rest);
      if j > 0 {
        assert Vanishes(tail[j - 1]);
      }
    }
  }

  lemma GapStep(words: seq<string>, room: int)
    requires words != []
    ensures var tail, rest := words[1..], room - Bytes(Kept(words[0])) - 1;
      Gap(words, room) <==> if Vanishes(words[0]) then Gap(tail, rest) else GapBefore(tail, rest)
  {
    hide Shows, Vanishes;
    var tail, rest := words[1..], room - Bytes(Kept(words[0])) - 1;
    forall k | 0 < k < |words|
      ensures Shows(words, k, room) <==> Shows(tail, k - 1, rest)
    {
      ShowsLater(words, k, room);
    }
    if i, j, k :| 0 <= i < j < k < |tail| && !Vanishes(tail[i]) && Vanishes(tail[j]) && Shows(tail, k, rest) {
      assert !Vanishes(words[i + 1]) && Vanishes(words[j + 1]) && Shows(words, k + 1, room);
    }
    if j, k :| 0 <= j < k < |tail| && Vanishes(tail[j]) && Shows(tail, k, rest) && !Vanishes(words[0]) {
      assert Vanishes(words[j + 1]) && Shows(words, k + 1, room);
    }
    if i, j, k :| 0 <= i < j < k < |words| && !Vanishes(words[i]) && Vanishes(words[j]) && Shows(words, k, room) {
      assert Vanishes(tail[j - 1]) && Shows(tail, k - 1, rest);
      if i > 0 {
        assert !Vanishes(tail[i - 1]);
      }
    }
  }

  lemma NoGapWithoutRoom(words: seq<string>, room: int)
    requires room < 0 || |words| < 2
    ensures !GapBefore(words, room) && !Gap(words, room)
  {
  }

  lemma BrokenAfterBlanks(s: string)
    ensures Broken("  " + s) <==> Visible(s)
  {
    var t := "  " + s;
    if i :| 0 <= i < |s| && !IsSpace(s[i]) {
      assert IsSpace(t[0]) && IsSpace(t[0 + 1]) && t[i + 2] == s[i];
    }
    if b, c :| 0 <= b && b + 1 < c < |t| && IsSpace(t[b]) && IsSpace(t[b + 1]) && !IsSpace(t[c]) {
      assert s[c - 2] == t[c];
    }
  }

  /** A word in front changes nothing. */
  lemma BrokenAfterWord(word: string, s: string)
    requires forall i :: 0 <= i < |word| ==> !IsSpace(word[i])
    ensures Broken(word + " " + s) <==> Broken(" " + s)
    ensures word != "" ==> (Broken(" " + (word + " " + s)) <==> Broken(" " + s))
  {
    BrokenAfter(word, " " + s);
    assert word + (" " + s) == word + " " + s;
    if word != "" {
      BrokenAfter(" " + word, " " + s);
      assert " " + word + (" " + s) == " " + (word + " " + s);
    }
  }

  lemma BrokenAfter(front: string, s: string)
    requires forall i :: 0 < i < |front| ==> !IsSpace(front[i])
    requires |front| == 1 ==> !IsSpace(front[0])
    ensures Broken(front + s) <==> Broken(s)
  {
    var t, n := front + s, |front|;
    if b, c :| 0 <= b && b + 1 < c < |s| && IsSpace(s[b]) && IsSpace(s[b + 1]) && !IsSpace(s[c]) {
      assert t[n + b] == s[b] && t[n + b + 1] == s[b + 1] && t[n + c] == s[c];
    }
    if b, c :| 0 <= b && b + 1 < c < |t| && IsSpace(t[b]) && IsSpace(t[b + 1]) && !IsSpace(t[c]) {
      assert b >= n;
      assert s[b - n] == t[b] && s[b - n + 1] == t[b + 1] && s[c - n] == t[c];
    }
  }

  lemma NotBroken(s: string)
    requires forall i :: 0 < i < |s| ==> !IsSpace(s[i])
    ensures !Broken(s)
  {
  }

  lemma {:induction false} BrokenLaid(words: seq<string>, room: int)
    requires Words(words)
    ensures Broken(" " + Laid(words, room)) <==> GapBefore(words, room)
  {
    hide Kept, Fitting, BytesBefore, AnyShows, Visible, Vanishes, Broken, Shows, GapBefore, Bytes;
    if |words| < 2 || room < 0 {
      NoGapWithoutRoom(words, room);
      if words != [] && room >= 0 {
        FirstWordShows(words[0], room);
      } else if room >= 0 {
        NothingFits(room);
      }
      NotBroken(" " + Laid(words, room));
    } else {
      var word, tail, rest := words[0], words[1..], room - Bytes(Kept(words[0])) - 1;
      var laid := Laid(tail, rest);
      FirstWordShows(word, room);
      LaidStep(words, room);
      GapBeforeStep(words, room);
      BrokenLaid(tail, rest);
      if rest < 0 {
        NoRoom(tail, rest);
        NoGapWithoutRoom(tail, rest);
        NotBroken(" " + Laid(words, room));
      } else if Kept(word) == "" {
        VisibleLaid(tail, rest);
        BrokenAfterBlanks(laid);
        assert " " + ("" + " " + laid) == "  " + laid;
        if GapBefore(tail, rest) {
          GapBeforeShows(tail, rest);
        }
      } else {
        KeptFacts(word);
        BrokenAfterWord(Kept(word), laid);
      }
    }
  }

  lemma GapBeforeShows(words: seq<string>, room: int)
    requires GapBefore(words, room)
    ensures AnyShows(words, room)
  {
    hide Shows, Vanishes;
  }

  lemma NothingFits(room: nat)
    ensures Laid([], room) == ""
  {
  }

  /** A text that begins visibly and has no white space but blanks. */
  lemma TrimmedIsSpaced(s: string)
    requires s != "" && !IsSpace(s[0]) && forall i :: 0 <= i < |s| && IsSpace(s[i]) ==> s[i] == ' '
    ensures Spaced(Trim(s)) <==> !Broken(s)
  {
    assert TrimLeft(s) == s;
    TrimRightFacts(s);
    TrimRightLeavesBlanks(s);
    var t := TrimRight(s);
    hide TrimLeft, TrimRight, Bytes;
    assert forall i :: 0 <= i < |t| ==> t[i] == s[i];
    assert t != "";
    if Broken(s) {
      var b, c :| 0 <= b && b + 1 < c < |s| && IsSpace(s[b]) && IsSpace(s[b + 1]) && !IsSpace(s[c]);
      assert c < |t|;
      assert IsSpace(t[b]) && IsSpace(t[b + 1]);
    } else {
      forall i | 0 <= i < |t| && IsSpace(t[i])
        ensures t[i] == ' ' && 0 < i < |t| - 1 && !IsSpace(t[i + 1])
      {
        assert i < |t| - 1 && IsSpace(s[i]) && !IsSpace(s[|t| - 1]);
      }
    }
  }

  lemma LaidBlanks(words: seq<string>, room: int)
    requires Words(words)
    ensures forall i :: 0 <= i < |Laid(words, room)| && IsSpace(Laid(words, room)[i]) ==> Laid(words, room)[i] == ' '
  {
    JoinIsSpaced(words);
    if room >= 0 {
      FittingChars(Join(words), room);
      hide Fitting, Join;
      forall c | c in Join(words) && IsSpace(c)
        ensures c == ' '
      {
        var i :| 0 <= i < |Join(words)| && Join(words)[i] == c;
      }
    }
  }

  lemma WordIsSpaced(s: string)
    requires forall i :: 0 <= i < |s| ==> !IsSpace(s[i])
    ensures Spaced(Trim(s))
  {
    assert TrimLeft(s) == s && TrimRight(s) == s;
  }

  lemma {:induction false} SpacedLaid(words: seq<string>, room: int)
    requires Words(words)
    ensures Spaced(Trim(Laid(words, room))) <==> !Gap(words, room)
  {
    hide Kept, Fitting, BytesBefore, AnyShows, Visible, Vanishes, Broken, Shows, GapBefore, Gap, Spaced, Trim;
    if |words| < 2 || room < 0 {
      NoGapWithoutRoom(words, room);
      if words != [] && room >= 0 {
        FirstWordShows(words[0], room);
      } else if room >= 0 {
        NothingFits(room);
      }
      WordIsSpaced(Laid(words, room));
    } else {
      var word, tail, rest := words[0], words[1..], room - Bytes(Kept(words[0])) - 1;
      var laid := Laid(tail, rest);
      FirstWordShows(word, room);
      LaidStep(words, room);
      GapStep(words, room);
      if rest < 0 {
        NoGapWithoutRoom(tail, rest);
        WordIsSpaced(Laid(words, room));
      } else if Kept(word) == "" {
        SpacedLaid(tail, rest);
        BlankIsTrimmed(laid);
        assert "" + " " + laid == " " + laid;
      } else {
        KeptFacts(word);
        BrokenLaid(tail, rest);
        BrokenAfterWord(Kept(word), laid);
        LaidBlanks(words, room);
        TrimmedIsSpaced(Laid(words, room));
      }
    }
  }

  lemma BlankIsTrimmed(s: string)
    ensures Trim(" " + s) == Trim(s)
  {
    assert (" " + s)[1..] == s;
  }

  /** One pass is a fixed point exactly when no word of control and format characters alone lies between
      a word that has others and one of which something is kept. */
  lemma DisplayOnceIsFixed(value: string, maxBytes: nat)
    ensures var once := Display(value, maxBytes);
      Display(once, maxBytes) == once <==> !Gap(Fields(value), maxBytes)
  {
    hide Gap, Fitting, Trim, Spaced, Bytes;
    FieldsAreWords(value);
    SpacedLaid(Fields(value), maxBytes);
    DisplayIsPrintable(value, maxBytes);
    DisplayFixed(Display(value, maxBytes), maxBytes);
  }

  /** Such an input: a lone format character between blanks leaves a double blank. */
  lemma DisplayOnceIsNotFixed()
    ensures var once := Display("a \U{200B} b", 256);
            once == "a  b" && Display(once, 256) == "a b"
  {
    OnceLeavesADoubleBlank();
    TwiceCollapsesIt();
  }

  lemma TwiceCollapsesIt()
    ensures Display("a  b", 256) == "a b"
  {
    hide Fitting, Fields, Join, Trim, Bytes;
    DoubleBlankCollapses();
    OneBlankIsCanonical();
    CollapseFixed("a b");
    DisplayFixed("a b", 256);
  }

  lemma OneBlankIsCanonical()
    ensures Canonical("a b") && Bytes("a b") <= 256
  {
    assert "a b"[1..] == " b" && " b"[1..] == "b" && "b"[1..] == "";
  }

  lemma BlankBFits(room: nat)
    requires room >= 2
    ensures Fitting(" b", room) == " b"
  {
    assert "b"[1..] == "" && " b"[1..] == "b";
    assert Fitting("b", room - 1) == "b";
  }

  lemma DoubleBlankCollapses()
    ensures Collapse("a  b") == "a b"
  {
    FieldsOfWord("b", "");
    FieldsOfWord("a", "  b");
    assert "  b"[1..] == " b" && " b"[1..] == "b" && "b" + "" == "b" && "a" + "  b" == "a  b";
    assert Fields("a  b") == ["a", "b"] && ["a", "b"][1..] == ["b"];
  }

  lemma OnceLeavesADoubleBlank()
    ensures Display("a \U{200B} b", 256) == "a  b"
  {
    FormatCharacterIsAWord();
    FormatCharacterIsDropped(255);
    assert "a \U{200B} b"[1..] == " \U{200B} b";
  }

  lemma FormatCharacterIsDropped(room: nat)
    requires room >= 3
    ensures Fitting(" \U{200B} b", room) == "  b"
  {
    assert " \U{200B} b"[1..] == "\U{200B} b" && "\U{200B} b"[1..] == " b";
    BlankBFits(room - 1);
  }

  lemma FormatCharacterIsAWord()
    ensures Collapse("a \U{200B} b") == "a \U{200B} b"
  {
    var s := "a \U{200B} b";
    forall i | 0 <= i < |s| && IsSpace(s[i])
      ensures s[i] == ' ' && 0 < i < |s| - 1 && !IsSpace(s[i + 1])
    {
      assert i == 1 || i == 3;
    }
    CollapseFixed(s);
  }
}
