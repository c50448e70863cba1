/** Cutting text at a separator, and why it can be done incrementally. */
module Framing {
  /** indexOf: the leftmost occurrence, or -1. */
  function IndexOf(s: string, sep: string): (i: int)
    ensures i == -1 || 0 <= i <= |s| - |sep|
  {
    if |s| < |sep| then -1
    else if s[..|sep|] == sep then 0
    else if s == "" then -1
    else
      var r := IndexOf(s[1..], sep);
      if r < 0 then -1 else r + 1
  }

  ghost predicate At(s: string, i: nat, sep: string) {
    i + |sep| <= |s| && s[i..i + |sep|] == sep
  }

  lemma AtTail(s: string, j: nat, sep: string)
    requires j > 0 && s != ""
    ensures At(s, j, sep) <==> At(s[1..], j - 1, sep)
  {
    if j + |sep| <= |s| {
      assert s[1..][j - 1..j - 1 + |sep|] == s[j..j + |sep|];
    }
  }

  /** IndexOf finds an occurrence .. */
  lemma {:induction false} IndexOfFinds(s: string, sep: string)
    requires IndexOf(s, sep) >= 0
    ensures At(s, IndexOf(s, sep), sep)
  {
    if s[..|sep|] != sep {
      IndexOfFinds(s[1..], sep);
      AtTail(s, IndexOf(s, sep), sep);
    }
  }

  /** .. and none is further left. */
  lemma {:induction false} IndexOfIsLeftmost(s: string, sep: string, j: nat)
    requires At(s, j, sep)
    ensures 0 <= IndexOf(s, sep) <= j
  {
    if s[..|sep|] != sep {
      AtTail(s, j, sep);
      IndexOfIsLeftmost(s[1..], sep, j - 1);
    }
  }

  /** The parts ended by a separator, and what follows the last one. */
  datatype Cut = Cut(parts: seq<string>, rest: string)

  function Split(s: string, sep: string): Cut
    requires sep != ""
    decreases |s|
  {
    var i := IndexOf(s, sep);
    if i < 0 then Cut([], s)
    else
      var c := Split(s[i + |sep|..], sep);
      Cut([s[..i]] + c.parts, c.rest)
  }

  lemma {:induction false} IndexOfAppend(a: string, b: string, sep: string)
    requires IndexOf(a, sep) >= 0
    ensures IndexOf(a + b, sep) == IndexOf(a, sep)
  {
    assert (a + b)[..|sep|] == a[..|sep|];
    if a[..|sep|] != sep {
      IndexOfAppend(a[1..], b, sep);
      assert (a + b)[1..] == a[1..] + b;
    }
  }

  lemma {:induction false} SplitUnfold(s: string, sep: string)
    requires sep != "" && IndexOf(s, sep) >= 0
    ensures var c := Split(s[IndexOf(s, sep) + |sep|..], sep);
            Split(s, sep) == Cut([s[..IndexOf(s, sep)]] + c.parts, c.rest)
  {
  }

  lemma {:induction false} Reassociate(a: string, b: string, c: string, d: string)
    ensures a + (b + c) + d == a + (b + (c + d))
  {
  }

  lemma {:induction false} SplitAt(s: string, sep: string, head: string, tail: string)
    requires sep != "" && IndexOf(s, sep) == |head| && s == head + (sep + tail)
    ensures Split(s, sep) == Cut([head] + Split(tail, sep).parts, Split(tail, sep).rest)
  {
    assert s[..|head|] == head && s[|head| + |sep|..] == tail;
  }

  lemma {:induction false} FirstPart(a: string, b: string, sep: string)
    requires sep != "" && IndexOf(a, sep) >= 0
    ensures var i := IndexOf(a, sep);
            var c := Split(a[i + |sep|..] + b, sep);
            Split(a + b, sep) == Cut([a[..i]] + c.parts, c.rest)
  {
    var i := IndexOf(a, sep);
    var tail := a[i + |sep|..];
    assert a + b == a[..i] + (sep + (tail + b)) by {
      IndexOfFinds(a, sep);
      assert a == a[..i] + a[i..i + |sep|] + tail;
    }
    assert IndexOf(a + b, sep) == i by { IndexOfAppend(a, b, sep); }
    SplitAt(a + b, sep, a[..i], tail + b);
  }

  /** What a reader holds after the next read: the rest is joined with it and cut again. */
  function Then(c: Cut, b: string, sep: string): Cut
    requires sep != ""
  {
    var d := Split(c.rest + b, sep);
    Cut(c.parts + d.parts, d.rest)
  }

  lemma ThenCons(x: string, c: Cut, b: string, sep: string)
    requires sep != ""
    ensures Then(Cut([x] + c.parts, c.rest), b, sep) == Cut([x] + Then(c, b, sep).parts, Then(c, b, sep).rest)
  {
    var d := Split(c.rest + b, sep);
    assert [x] + (c.parts + d.parts) == ([x] + c.parts) + d.parts;
  }

  lemma ThenNothing(a: string, b: string, sep: string)
    requires sep != ""
    ensures Then(Cut([], a), b, sep) == Split(a + b, sep)
  {
    assert [] + Split(a + b, sep).parts == Split(a + b, sep).parts;
  }

  /** Cutting what has arrived and keeping only the rest loses nothing: reading a and then b gives the
      same parts and the same rest as reading a + b at once. */
  lemma {:induction false} SplitAppend(a: string, b: string, sep: string)
    requires sep != ""
    ensures Split(a + b, sep) == Then(Split(a, sep), b, sep)
    decreases |a|
  {
    var i := IndexOf(a, sep);
    if i < 0 {
      ThenNothing(a, b, sep);
    } else {
      SplitAppend(a[i + |sep|..], b, sep);
      SplitAppendCons(a, b, sep);
    }
  }

  lemma SplitAppendCons(a: string, b: string, sep: string)
    requires sep != "" && IndexOf(a, sep) >= 0
    requires var tail := a[IndexOf(a, sep) + |sep|..]; Split(tail + b, sep) == Then(Split(tail, sep), b, sep)
    ensures Split(a + b, sep) == Then(Split(a, sep), b, sep)
  {
    var i := IndexOf(a, sep);
    FirstPart(a, b, sep);
    SplitUnfold(a, sep);
    ThenCons(a[..i], Split(a[i + |sep|..], sep), b, sep);
  }

  ghost predicate NoNewline(s: string) { forall i :: 0 <= i < |s| ==> s[i] != '\n' }

  lemma {:induction false} IndexAfterBody(body: string, sep: string, tail: string)
    requires sep != "" && sep[0] == '\n' && NoNewline(body)
    ensures IndexOf(body + (sep + tail), sep) == |body|
  {
    var s := body + (sep + tail);
    if body == "" {
      assert s[..|sep|] == sep;
    } else {
      assert s[..|sep|][0] == body[0];
      IndexAfterBody(body[1..], sep, tail);
      assert s[1..] == body[1..] + (sep + tail);
    }
  }

  /** A body without newlines is cut off whole by a separator that starts with one. */
  lemma SplitBody(body: string, sep: string, tail: string)
    requires sep != "" && sep[0] == '\n' && NoNewline(body)
    ensures Split(body + (sep + tail), sep) == Cut([body] + Split(tail, sep).parts, Split(tail, sep).rest)
  {
    IndexAfterBody(body, sep, tail);
    SplitAt(body + (sep + tail), sep, body, tail);
  }

  lemma {:induction false} SplitNone(s: string, sep: string)
    requires sep != "" && sep[0] == '\n' && NoNewline(s)
    ensures IndexOf(s, sep) == -1 && Split(s, sep) == Cut([], s)
  {
    if |s| >= |sep| {
      assert s[..|sep|][0] == s[0];
      SplitNone(s[1..], sep);
    }
  }

  function Concat(pieces: seq<string>): string {
    if pieces == [] then "" else Concat(pieces[..|pieces| - 1]) + pieces[|pieces| - 1]
  }

  // ---------------------------------------------------------------------------------------
  // Whitespace
  // ---------------------------------------------------------------------------------------

  /** What String.prototype.trim removes. */
  predicate IsSpace(c: char) {
    || c == ' ' || c == '\t' || c == '\n' || c == '\r' || c == '\U{000B}' || c == '\U{000C}'
    || c == '\U{00A0}' || c == '\U{1680}' || '\U{2000}' <= c <= '\U{200A}' || c == '\U{2028}' || c == '\U{2029}'
    || c == '\U{202F}' || c == '\U{205F}' || c == '\U{3000}' || c == '\U{FEFF}'
  }

  function TrimStart(s: string): string {
    if s != "" && IsSpace(s[0]) then TrimStart(s[1..]) else s
  }

  function TrimEnd(s: string): string {
    if s != "" && IsSpace(s[|s| - 1]) then TrimEnd(s[..|s| - 1]) else s
  }

  function Trim(s: string): string { TrimEnd(TrimStart(s)) }

  ghost predicate AllSpace(s: string) { forall i :: 0 <= i < |s| ==> IsSpace(s[i]) }

  /** Nothing to trim. */
  ghost predicate Tight(t: string) { t != "" && !IsSpace(t[0]) && !IsSpace(t[|t| - 1]) }

  lemma {:induction false} TrimStartSkips(pre: string, s: string)
    requires AllSpace(pre)
    ensures TrimStart(pre + s) == TrimStart(s)
  {
    if pre == "" {
      assert pre + s == s;
    } else {
      TrimStartSkips(pre[1..], s);
      assert (pre + s)[1..] == pre[1..] + s && (pre + s)[0] == pre[0];
    }
  }

  lemma {:induction false} TrimEndSkips(s: string, post: string)
    requires AllSpace(post)
    ensures TrimEnd(s + post) == TrimEnd(s)
  {
    if post == "" {
      assert s + post == s;
    } else {
      var n := |post| - 1;
      TrimEndSkips(s, post[..n]);
      assert (s + post)[..|s + post| - 1] == s + post[..n] && (s + post)[|s + post| - 1] == post[n];
    }
  }

  /** Trim takes off exactly the space around. */
  lemma TrimAround(pre: string, t: string, post: string)
    requires AllSpace(pre) && AllSpace(post)
    ensures Tight(t) ==> Trim(pre + (t + post)) == t
    ensures Trim(pre) == ""
  {
    if Tight(t) {
      TrimStartSkips(pre, t + post);
      assert (t + post)[0] == t[0];
      TrimEndSkips(t, post);
    }
    TrimStartSkips(pre, "");
    assert pre + "" == pre;
  }

  lemma TrimLeadingSpace(t: string)
    requires t != "" && !IsSpace(t[0]) && !IsSpace(t[|t| - 1])
    ensures Trim(" " + t) == t && Trim(t) == t
  {
    assert (" " + t)[1..] == t && (" " + t)[0] == ' ';
    assert TrimStart(" " + t) == TrimStart(t) == t && TrimEnd(t) == t;
  }

  predicate StartsWith(s: string, prefix: string) { |prefix| <= |s| && s[..|prefix|] == prefix }
}
