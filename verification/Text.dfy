/** The string operations of Go's `strings` package that the daemon relies on. */
module Text {
  import opened Basics

  predicate HasPrefix(s: string, p: string) {
    |p| <= |s| && s[..|p|] == p
  }

  predicate Contains(s: string, part: string) {
    HasPrefix(s, part) || (s != "" && Contains(s[1..], part))
  }

  predicate HasSuffix(s: string, p: string) {
    |p| <= |s| && s[|s| - |p|..] == p
  }

  function TrimSuffix(s: string, p: string): (r: string) {
    if HasSuffix(s, p) then s[..|s| - |p|] else s
  }

  /** `unicode.IsSpace`. */
  predicate IsSpace(c: char) {
    || c in {'\t', '\n', '\r', ' '}
    || c in {'\U{000B}', '\U{000C}', '\U{0085}', '\U{00A0}', '\U{1680}'}
    || '\U{2000}' <= c <= '\U{200A}'
    || c in {'\U{2028}', '\U{2029}', '\U{202F}', '\U{205F}', '\U{3000}'}
  }

  function TrimLeft(s: string): (r: string)
    ensures r != [] ==> !IsSpace(r[0])
    ensures |r| <= |s| && r == s[|s| - |r|..]
    ensures forall i :: 0 <= i < |s| - |r| ==> IsSpace(s[i])
  {
    if s != [] && IsSpace(s[0]) then TrimLeft(s[1..]) else s
  }

  function TrimRight(s: string): (r: string)
    ensures r != [] ==> !IsSpace(r[|r| - 1])
    ensures r <= s
    ensures s != [] && !IsSpace(s[0]) ==> r != []
    ensures forall i :: |r| <= i < |s| ==> IsSpace(s[i])
  {
    if s != [] && IsSpace(s[|s| - 1]) then TrimRight(s[..|s| - 1]) else s
  }

  /** True of strings that `strings.TrimSpace` leaves alone. */
  predicate Trimmed(s: string) {
    s == [] || (!IsSpace(s[0]) && !IsSpace(s[|s| - 1]))
  }

  /** True of strings made of white space only. */
  predicate Blank(s: string) {
    forall i :: 0 <= i < |s| ==> IsSpace(s[i])
  }

  function TrimSpace(s: string): (r: string)
    ensures Trimmed(r)
    ensures Trimmed(s) ==> r == s
    ensures r == [] <==> Blank(s)
  {
    var l := TrimLeft(s);
    var r := TrimRight(l);
    assert r != [] ==> r[0] == l[0];
    assert r != [] ==> s[|s| - |l|] == l[0] && !IsSpace(s[|s| - |l|]);
    r
  }

  /** `strings.ToLower`, on ASCII letters. */
  function Lower(c: char): char {
    if 'A' <= c <= 'Z' then (c as int + 32) as char else c
  }

  function ToLower(s: string): (r: string)
    ensures |r| == |s|
  {
    seq(|s|, i requires 0 <= i < |s| => Lower(s[i]))
  }

  /** `auth.NormalizeIdentity`: the case-insensitive ownership key of a common name. */
  function NormalizeIdentity(name: string): (r: Option<string>)
    ensures r.Some? <==> name != "" && Trimmed(name)
    ensures r.Some? ==> |r.value| == |name|
  {
    if name == "" then None
    else if TrimSpace(name) != name then None
    else Some(ToLower(name))
  }

  /** The same character, or the two cases of one ASCII letter. */
  predicate SameLetter(a: char, b: char) {
    || a == b
    || ('A' <= a <= 'Z' && b as int == a as int + 32)
    || ('A' <= b <= 'Z' && a as int == b as int + 32)
  }

  /** Two names have the same key exactly when they differ in case only; a key has no capitals and is its own key. */
  lemma IdentityIgnoresCase(a: string, b: string)
    requires NormalizeIdentity(a).Some? && NormalizeIdentity(b).Some?
    ensures NormalizeIdentity(a) == NormalizeIdentity(b) <==>
              |a| == |b| && forall k :: 0 <= k < |a| ==> SameLetter(a[k], b[k])
    ensures forall k :: 0 <= k < |a| ==>
              var c := NormalizeIdentity(a).value[k]; SameLetter(c, a[k]) && !('A' <= c <= 'Z')
    ensures NormalizeIdentity(NormalizeIdentity(a).value) == NormalizeIdentity(a)
  {
    hide TrimSpace, Trimmed;
    var x, y := ToLower(a), ToLower(b);
    assert x == y <==> |a| == |b| && forall k :: 0 <= k < |a| ==> x[k] == y[k];
    assert forall k :: 0 <= k < |a| ==> x[k] == Lower(a[k]);
    assert forall k :: 0 <= k < |b| ==> y[k] == Lower(b[k]);
    assert forall c, d :: Lower(c) == Lower(d) <==> SameLetter(c, d);
    LowerKeepsTrimmed(a);
    assert ToLower(x) == x;
  }

  lemma LowerKeepsTrimmed(s: string)
    ensures Trimmed(ToLower(s)) <==> Trimmed(s)
  {
    assert forall c :: IsSpace(Lower(c)) <==> IsSpace(c);
  }

  lemma {:induction false} ContainsStands(a: string, part: string, b: string)
    ensures Contains(a + part + b, part)
    decreases |a|
  {
    var s := a + part + b;
    if a == "" {
      assert s[..|part|] == part;
    } else {
      assert s[1..] == a[1..] + part + b;
      ContainsStands(a[1..], part, b);
    }
  }

  lemma {:induction false} ContainsSplits(s: string, part: string)
    requires Contains(s, part)
    ensures exists a, b :: s == a + part + b
    decreases |s|
  {
    if HasPrefix(s, part) {
      assert s == "" + part + s[|part|..];
    } else {
      ContainsSplits(s[1..], part);
      var a, b :| s[1..] == a + part + b;
      assert s == ([s[0]] + a) + part + b;
    }
  }

  /** A part is contained exactly when it stands somewhere. */
  lemma ContainsMeans(s: string, part: string)
    ensures Contains(s, part) <==> exists a, b :: s == a + part + b
  {
    if Contains(s, part) {
      ContainsSplits(s, part);
    }
    if a, b :| s == a + part + b {
      ContainsStands(a, part, b);
    }
  }

  lemma {:induction false} TrimLeftCore(a: string, rest: string)
    requires Blank(a) && rest != "" && !IsSpace(rest[0])
    ensures TrimLeft(a + rest) == rest
    decreases |a|
  {
    hide IsSpace;
    if a == "" {
      assert a + rest == rest;
    } else {
      assert (a + rest)[1..] == a[1..] + rest;
      TrimLeftCore(a[1..], rest);
    }
  }

  lemma {:induction false} TrimRightCore(rest: string, b: string)
    requires Blank(b) && rest != "" && !IsSpace(rest[|rest| - 1])
    ensures TrimRight(rest + b) == rest
    decreases |b|
  {
    hide IsSpace;
    if b == "" {
      assert rest + b == rest;
    } else {
      var s := rest + b;
      assert s[|s| - 1] == b[|b| - 1] && s[..|s| - 1] == rest + b[..|b| - 1];
      TrimRightCore(rest, b[..|b| - 1]);
    }
  }

  /** Trimming removes the white space around a text, and nothing else. */
  lemma {:induction false} TrimSpaceCore(a: string, core: string, b: string)
    requires Blank(a) && Blank(b) && Trimmed(core) && core != ""
    ensures TrimSpace(a + core + b) == core
  {
    hide IsSpace, TrimLeft, TrimRight, Blank;
    assert a + core + b == a + (core + b);
    TrimLeftCore(a, core + b);
    TrimRightCore(core, b);
  }

  /** The white space of Unicode, by code point. */
  lemma SpaceCodes(c: char)
    ensures IsSpace(c) <==>
              var n := c as int;
              || 9 <= n <= 13 || n == 32 || n == 0x85 || n == 0xA0 || n == 0x1680 || 0x2000 <= n <= 0x200A
              || n == 0x2028 || n == 0x2029 || n == 0x202F || n == 0x205F || n == 0x3000
  {
  }

  /** Position of the first `c`, or `|s|` when there is none. */
  function Index(s: string, c: char): (i: nat)
    ensures i <= |s|
    ensures c !in s[..i]
    ensures i < |s| ==> s[i] == c
  {
    if s == [] || s[0] == c then 0 else
      var i := 1 + Index(s[1..], c);
      assert s[..i] == [s[0]] + s[1..][..i - 1];
      i
  }

  lemma IndexUnique(s: string, c: char, i: nat)
    requires i <= |s| && c !in s[..i] && (i < |s| ==> s[i] == c)
    ensures Index(s, c) == i
  {
  }

  /** `strings.Split` with a one-character separator. */
  function Split(s: string, c: char): (parts: seq<string>)
    ensures parts != []
    ensures forall i :: 0 <= i < |parts| ==> c !in parts[i]
    decreases |s|
  {
    var i := Index(s, c);
    if i == |s| then [s] else [s[..i]] + Split(s[i + 1..], c)
  }

  function Join(parts: seq<string>, c: char): (s: string)
    requires parts != []
  {
    if |parts| == 1 then parts[0] else parts[0] + [c] + Join(parts[1..], c)
  }

  /** Splitting undoes joining when no part contains the separator. */
  lemma {:induction false} SplitJoin(parts: seq<string>, c: char)
    requires parts != [] && forall i :: 0 <= i < |parts| ==> c !in parts[i]
    ensures Split(Join(parts, c), c) == parts
    decreases |parts|
  {
    var s := Join(parts, c);
    if |parts| == 1 {
      IndexUnique(s, c, |s|);
    } else {
      IndexUnique(s, c, |parts[0]|);
      assert s[..|parts[0]|] == parts[0];
      assert s[|parts[0]| + 1..] == Join(parts[1..], c);
      SplitJoin(parts[1..], c);
    }
  }

  lemma SplitWhole(a: string, c: char)
    requires c !in a
    ensures Split(a, c) == [a]
  {
    IndexUnique(a, c, |a|);
  }

  lemma SplitHead(a: string, c: char, b: string)
    requires c !in a
    ensures Split(a + [c] + b, c) == [a] + Split(b, c)
  {
    var s := a + [c] + b;
    assert s[..|a|] == a && s[|a|] == c && s[|a| + 1..] == b;
    IndexUnique(s, c, |a|);
  }

  lemma {:induction false} SplitMore(a: string, c: char, b: string)
    requires c !in b
    ensures Split(a + [c] + b, c) == Split(a, c) + [b]
    decreases |a|
  {
    hide Split;
    var i := Index(a, c);
    SplitWhole(b, c);
    if i == |a| {
      assert a[..i] == a;
      SplitWhole(a, c);
      SplitHead(a, c, b);
    } else {
      var h, t := a[..i], a[i + 1..];
      assert a == h + [c] + t;
      assert a + [c] + b == h + [c] + (t + [c] + b);
      SplitHead(h, c, t);
      SplitHead(h, c, t + [c] + b);
      SplitMore(t, c, b);
    }
  }

  /** A joined list contains the separator exactly when it has two or more parts. */
  lemma {:induction false} JoinContains(parts: seq<string>, c: char)
    requires parts != [] && forall i :: 0 <= i < |parts| ==> c !in parts[i]
    ensures c in Join(parts, c) <==> |parts| > 1
  {
    if |parts| > 1 {
      assert (parts[0] + [c])[|parts[0]|] == c;
    }
  }

  /** A character foreign to the separator and to every part is foreign to the joined list. */
  lemma {:induction false} JoinLacks(parts: seq<string>, c: char, d: char)
    requires parts != [] && c != d && forall i :: 0 <= i < |parts| ==> d !in parts[i]
    ensures d !in Join(parts, c)
    decreases |parts|
  {
    if |parts| > 1 {
      JoinLacks(parts[1..], c, d);
    }
  }

  /** A joined list starts with its first part and ends with its last one. */
  lemma {:induction false} JoinEnds(parts: seq<string>, c: char)
    requires parts != []
    ensures HasPrefix(Join(parts, c), parts[0])
    ensures HasSuffix(Join(parts, c), parts[|parts| - 1])
    decreases |parts|
  {
    if |parts| > 1 {
      JoinEnds(parts[1..], c);
      var t := Join(parts[1..], c);
      var s := parts[0] + [c] + t;
      assert s[|parts[0]| + 1..] == t;
      assert s[|s| - |parts[|parts| - 1]|..] == t[|t| - |parts[|parts| - 1]|..];
    }
  }
}
