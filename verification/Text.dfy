/** String operations of the standard library that the endpoint and deposit parsers rest on. */
module Text {

  /** Unicode White_Space. */
  predicate IsSpace(c: char) {
    || '\U{0009}' <= c <= '\U{000D}'
    || c in {'\U{0020}', '\U{0085}', '\U{00A0}', '\U{1680}', '\U{2028}', '\U{2029}', '\U{202F}', '\U{205F}', '\U{3000}'}
    || '\U{2000}' <= c <= '\U{200A}'
  }

  /** The 25 code points. */
  lemma WhiteSpace(c: char)
    ensures
      var n := c as nat;
      IsSpace(c) <==>
        9 <= n <= 13 || n == 32 || n == 133 || n == 160 || n == 5760 || 8192 <= n <= 8202
        || n == 8232 || n == 8233 || n == 8239 || n == 8287 || n == 12288
  {
  }

  function TrimStart(s: string): string {
    if s != [] && IsSpace(s[0]) then TrimStart(s[1..]) else s
  }

  function TrimEnd(s: string): string {
    if s != [] && IsSpace(s[|s| - 1]) then TrimEnd(s[..|s| - 1]) else s
  }

  function Trim(s: string): string {
    TrimEnd(TrimStart(s))
  }

  /** The string neither starts nor ends with white space. */
  predicate Trimmed(s: string) {
    s == [] || (!IsSpace(s[0]) && !IsSpace(s[|s| - 1]))
  }

  /** The parts between separators; one more part than separators. */
  function Split(s: string, sep: char): (parts: seq<string>)
    ensures parts != []
  {
    if s == [] then [[]]
    else
      var rest := Split(s[1..], sep);
      if s[0] == sep then [[]] + rest else [[s[0]] + rest[0]] + rest[1..]
  }

  function Join(parts: seq<string>, glue: string): string {
    if parts == [] then [] else if |parts| == 1 then parts[0] else parts[0] + glue + Join(parts[1..], glue)
  }

  /** Position of the first character that satisfies `p`, or the length. */
  function Find(s: string, p: char -> bool): (i: nat)
    ensures i <= |s|
    ensures forall j :: 0 <= j < i ==> !p(s[j])
    ensures i < |s| ==> p(s[i])
  {
    if s == [] || p(s[0]) then 0 else 1 + Find(s[1..], p)
  }

  lemma {:induction false} FindAt(front: string, rest: string, p: char -> bool)
    requires rest != [] && p(rest[0]) && forall i :: 0 <= i < |front| ==> !p(front[i])
    ensures Find(front + rest, p) == |front|
  {
    var s := front + rest;
    assert s[|front|] == rest[0] && forall i :: 0 <= i < |front| ==> s[i] == front[i];
    assert Find(s, p) <= |front|;
  }

  lemma {:induction false} TrimEndPrefix(s: string)
    ensures TrimEnd(s) <= s
    ensures TrimEnd(s) == [] || !IsSpace(TrimEnd(s)[|TrimEnd(s)| - 1])
  {
    if s != [] && IsSpace(s[|s| - 1]) {
      TrimEndPrefix(s[..|s| - 1]);
    }
  }

  lemma {:induction false} TrimStartHead(s: string)
    ensures TrimStart(s) == [] || !IsSpace(TrimStart(s)[0])
    ensures forall c :: c in TrimStart(s) ==> c in s
  {
    if s != [] && IsSpace(s[0]) {
      TrimStartHead(s[1..]);
    }
  }

  lemma {:induction false} TrimTrims(s: string)
    ensures Trimmed(Trim(s))
    ensures forall c :: c in Trim(s) ==> c in s
  {
    TrimStartHead(s);
    TrimEndPrefix(TrimStart(s));
  }

  /** A separator-free string in front stays the front of the first part. */
  lemma {:induction false} SplitFree(a: string, sep: char)
    requires sep !in a
    ensures Split(a, sep) == [a]
  {
    if a != [] {
      SplitFree(a[1..], sep);
      assert [a[0]] + a[1..] == a;
    }
  }

  lemma {:induction false} SplitAtSeparator(a: string, rest: string, sep: char)
    requires sep !in a
    ensures Split(a + [sep] + rest, sep) == [a] + Split(rest, sep)
    decreases |a|
  {
    var s := a + [sep] + rest;
    if a == [] {
      assert s[1..] == rest;
    } else {
      assert s[1..] == a[1..] + [sep] + rest;
      SplitAtSeparator(a[1..], rest, sep);
      assert [a[0]] + a[1..] == a;
    }
  }

  lemma {:induction false} SplitPartsFree(s: string, sep: char)
    ensures forall part :: part in Split(s, sep) ==> sep !in part && forall c :: c in part ==> c in s
  {
    if s != [] {
      SplitPartsFree(s[1..], sep);
      var rest := Split(s[1..], sep);
      assert rest[0] in rest;
      forall part | part in Split(s, sep)
        ensures sep !in part && forall c :: c in part ==> c in s
      {
        if part != [] && part !in rest {
          assert part == [s[0]] + rest[0];
        } else if part in rest {
          assert forall c :: c in part ==> c in s[1..];
        }
      }
    }
  }

  /** Splitting undoes joining. */
  lemma {:induction false} SplitOfJoin(parts: seq<string>, sep: char)
    requires parts != [] && forall p :: p in parts ==> sep !in p
    ensures Split(Join(parts, [sep]), sep) == parts
    decreases |parts|
  {
    assert parts[0] in parts;
    if |parts| == 1 {
      SplitFree(parts[0], sep);
    } else {
      SplitOfJoin(parts[1..], sep);
      SplitAtSeparator(parts[0], Join(parts[1..], [sep]), sep);
    }
  }
}
