/** Small types shared by every part of the model. */
module Prelude {

  datatype Option<+T> = None | Some(value: T)

  datatype Result<+T, +E> = Ok(value: T) | Err(error: E)

  /** No element occurs twice. */
  predicate Distinct<T(==)>(s: seq<T>) {
    forall i, j | 0 <= i < j < |s| :: s[i] != s[j]
  }

  function Elements<T>(s: seq<T>): set<T> {
    set x | x in s
  }

  /** A duplicate-free sequence is exactly as long as its set of elements. */
  lemma {:induction false} DistinctLength<T>(s: seq<T>)
    requires Distinct(s)
    ensures |Elements(s)| == |s|
  {
    if s == [] {
      assert Elements(s) == {};
    } else {
      var last := |s| - 1;
      DistinctLength(s[..last]);
      assert s[last] !in s[..last];
      assert Elements(s) == Elements(s[..last]) + {s[last]};
    }
  }

  lemma {:induction false} SubsetSize<T>(a: set<T>, b: set<T>)
    requires a <= b
    ensures |a| <= |b|
    ensures |a| == |b| ==> a == b
  {
    assert b == a + (b - a);
    if a != b {
      var x :| x in b - a;
    }
  }

  lemma {:induction false} Extremes(s: set<nat>) returns (low: nat, high: nat)
    requires s != {}
    ensures low in s && high in s && forall x | x in s :: low <= x <= high
  {
    var y :| y in s;
    low, high := y, y;
    if s != {y} {
      var l, h := Extremes(s - {y});
      assert forall x | x in s :: x == y || x in s - {y};
      low, high := if l <= y then l else y, if y <= h then h else y;
    }
  }

  lemma ExtremesExist(s: set<nat>)
    requires s != {}
    ensures exists m :: m in s && forall x | x in s :: x <= m
    ensures exists m :: m in s && forall x | x in s :: m <= x
  {
    var low, high := Extremes(s);
  }

  function MaxOf(s: set<nat>): (m: nat)
    requires s != {}
    ensures m in s && forall x | x in s :: x <= m
  {
    ExtremesExist(s);
    var m :| m in s && forall x | x in s :: x <= m;
    m
  }

  function MinOf(s: set<nat>): (m: nat)
    requires s != {}
    ensures m in s && forall x | x in s :: m <= x
  {
    ExtremesExist(s);
    var m :| m in s && forall x | x in s :: m <= x;
    m
  }

  // ---------------------------------------------------------------- maps from keys to lists

  function Bucket<T>(index: map<string, seq<T>>, key: string): seq<T> {
    if key in index then index[key] else []
  }

  function AddTo<T>(index: map<string, seq<T>>, key: string, x: T): (r: map<string, seq<T>>)
    ensures forall k :: Bucket(r, k) == Bucket(index, k) + if k == key then [x] else []
  {
    index[key := Bucket(index, key) + [x]]
  }

  // ---------------------------------------------------------------- white space

  predicate IsSpace(c: char) {
    c in " \t\n\r" || c == '\U{B}' || c == '\U{C}' || c == '\U{85}' || c == '\U{A0}' || c == '\U{1680}'
    || '\U{2000}' <= c <= '\U{200A}' || c == '\U{2028}' || c == '\U{2029}' || c == '\U{202F}'
    || c == '\U{205F}' || c == '\U{3000}'
  }

  predicate Blank(s: string) {
    forall k | 0 <= k < |s| :: IsSpace(s[k])
  }

  function TrimLeft(s: string): (r: string)
    ensures |r| <= |s|
  {
    if s != [] && IsSpace(s[0]) then TrimLeft(s[1..]) else s
  }

  function TrimRight(s: string): string {
    if s != [] && IsSpace(s[|s| - 1]) then TrimRight(s[..|s| - 1]) else s
  }

  /** The text without leading and trailing white space. */
  function Trim(s: string): string { TrimRight(TrimLeft(s)) }

  lemma {:induction false} TrimmedLeft(s: string)
    ensures TrimLeft(s) == [] <==> Blank(s)
    ensures |TrimLeft(s)| > 0 ==> !IsSpace(TrimLeft(s)[0])
  {
    if s != [] && IsSpace(s[0]) {
      TrimmedLeft(s[1..]);
      assert forall k | 0 <= k < |s| :: k == 0 || s[k] == s[1..][k - 1];
    }
  }

  lemma {:induction false} TrimmedRight(s: string)
    requires |s| > 0 && !IsSpace(s[0])
    ensures |TrimRight(s)| > 0 && !IsSpace(TrimRight(s)[0])
  {
    if IsSpace(s[|s| - 1]) { TrimmedRight(s[..|s| - 1]); }
  }

  /** Trimming leaves nothing exactly of blank text. */
  lemma TrimEmpty(s: string)
    ensures Trim(s) == [] <==> Blank(s)
  {
    TrimmedLeft(s);
    if TrimLeft(s) != [] { TrimmedRight(TrimLeft(s)); }
  }

  lemma {:induction false} TrimmedRightExactly(s: string) returns (after: string)
    ensures s == TrimRight(s) + after && Blank(after)
    ensures TrimRight(s) != [] ==> !IsSpace(TrimRight(s)[|TrimRight(s)| - 1])
  {
    after := [];
    if s != [] && IsSpace(s[|s| - 1]) {
      after := TrimmedRightExactly(s[..|s| - 1]);
      after := after + [s[|s| - 1]];
      assert s == s[..|s| - 1] + [s[|s| - 1]];
    }
  }

  lemma {:induction false} TrimmedLeftExactly(s: string) returns (before: string)
    ensures s == before + TrimLeft(s) && Blank(before)
  {
    before := [];
    if s != [] && IsSpace(s[0]) {
      before := TrimmedLeftExactly(s[1..]);
      before := [s[0]] + before;
      assert s == [s[0]] + s[1..];
    }
  }

  /** Trimming takes off white space at both ends, all of it, and nothing else. */
  lemma TrimExactly(s: string) returns (before: string, after: string)
    ensures s == before + Trim(s) + after && Blank(before) && Blank(after)
    ensures Trim(s) != [] ==> !IsSpace(Trim(s)[0]) && !IsSpace(Trim(s)[|Trim(s)| - 1])
  {
    before := TrimmedLeftExactly(s);
    after := TrimmedRightExactly(TrimLeft(s));
    TrimmedLeft(s);
    if TrimLeft(s) != [] { TrimmedRight(TrimLeft(s)); }
  }

  // ---------------------------------------------------------------- words

  function WordEnd(s: string): (n: nat)
    ensures n <= |s| && (forall k | 0 <= k < n :: !IsSpace(s[k])) && (n < |s| ==> IsSpace(s[n]))
  {
    if s == [] || IsSpace(s[0]) then 0 else 1 + WordEnd(s[1..])
  }

  /** The words of a text: its longest runs without white space. */
  function Words(s: string): seq<string>
    decreases |s|
  {
    TrimmedLeft(s);
    var t := TrimLeft(s);
    if t == [] then [] else [t[..WordEnd(t)]] + Words(t[WordEnd(t)..])
  }

  /** The text is these words, in order, with white space between them and perhaps around. */
  ghost predicate Spells(s: string, words: seq<string>)
    decreases |words|
  {
    if words == [] then Blank(s) else exists before, rest :: StartsWith(s, before, words[0], rest) && Spells(rest, words[1..])
  }

  /** White space, then a word, and after it white space or nothing. */
  predicate StartsWith(s: string, before: string, word: string, rest: string) {
    && s == before + word + rest && Blank(before) && word != [] && (rest == [] || IsSpace(rest[0]))
    && forall k | 0 <= k < |word| :: !IsSpace(word[k])
  }

  lemma {:induction false} WordsSpell(s: string)
    ensures Spells(s, Words(s))
    decreases |s|
  {
    TrimmedLeft(s);
    var before := TrimmedLeftExactly(s);
    var t := TrimLeft(s);
    if t != [] {
      var n := WordEnd(t);
      WordsSpell(t[n..]);
      FirstWord(s, before, t, n);
      assert Words(s) == [t[..n]] + Words(t[n..]);
      assert Words(s)[0] == t[..n] && Words(s)[1..] == Words(t[n..]);
    }
  }

  /** A word of `n` characters, and then white space or nothing. */
  predicate EndsAt(t: string, n: nat) {
    n <= |t| && (forall k | 0 <= k < n :: !IsSpace(t[k])) && (n < |t| ==> IsSpace(t[n]))
  }

  lemma FirstWord(s: string, before: string, t: string, n: nat)
    requires s == before + t && Blank(before) && t != [] && !IsSpace(t[0]) && EndsAt(t, n)
    ensures 0 < n && StartsWith(s, before, t[..n], t[n..])
  {
    assert before + t == before + t[..n] + t[n..];
  }

  lemma WordEndsAt(t: string, n: nat)
    requires EndsAt(t, n)
    ensures WordEnd(t) == n
  {
  }

  lemma {:induction false} BlankPrefix(a: string, b: string)
    requires Blank(a)
    ensures TrimLeft(a + b) == TrimLeft(b)
  {
    if a == [] {
      assert a + b == b;
    } else {
      assert (a + b)[1..] == a[1..] + b && IsSpace((a + b)[0]) by { assert (a + b)[0] == a[0]; }
      BlankPrefix(a[1..], b);
    }
  }

  /** The words of a text are the only ones that spell it. */
  lemma {:induction false} WordsExactly(s: string, words: seq<string>)
    ensures Spells(s, words) <==> words == Words(s)
    decreases |s|, |words|
  {
    WordsSpell(s);
    TrimmedLeft(s);
    if Spells(s, words) && words != [] {
      var before, rest :| StartsWith(s, before, words[0], rest) && Spells(rest, words[1..]);
      WordFirst(s, before, words[0], rest);
      WordsExactly(rest, words[1..]);
      assert words == [words[0]] + words[1..];
    }
  }

  lemma WordFirst(s: string, before: string, word: string, rest: string)
    requires StartsWith(s, before, word, rest)
    ensures |rest| < |s| && TrimLeft(s) == word + rest && Words(s) == [word] + Words(rest)
  {
    var t := word + rest;
    assert s == before + t && t[0] == word[0];
    BlankPrefix(before, t);
    NothingToTrim(t);
    WordThenRest(word, rest);
    WordEndsAt(t, |word|);
    assert t[..|word|] == word && t[|word|..] == rest;
  }

  lemma NothingToTrim(t: string)
    requires t != [] && !IsSpace(t[0])
    ensures TrimLeft(t) == t
  {
  }

  lemma WordThenRest(word: string, rest: string)
    requires (forall k | 0 <= k < |word| :: !IsSpace(word[k])) && (rest == [] || IsSpace(rest[0]))
    ensures EndsAt(word + rest, |word|)
  {
  }

  ghost predicate PlainWords(words: seq<string>) {
    forall k | 0 <= k < |words| :: words[k] != [] && ' ' !in words[k]
  }

  lemma {:induction false} WordsArePlain(s: string)
    ensures PlainWords(Words(s))
    decreases |s|
  {
    TrimmedLeft(s);
    var t := TrimLeft(s);
    if t != [] { WordsArePlain(t[WordEnd(t)..]); }
  }

  function Joined(words: seq<string>): string {
    if words == [] then "" else if |words| == 1 then words[0] else words[0] + " " + Joined(words[1..])
  }

  lemma {:induction false} SplitAt(c: char, a: string, x: string, a': string, x': string)
    requires c !in a && c !in a' && a + [c] + x == a' + [c] + x'
    ensures a == a' && x == x'
  {
    var all := a + [c] + x;
    var all' := a' + [c] + x';
    assert all[0] == (if a == [] then c else a[0]);
    assert all'[0] == (if a' == [] then c else a'[0]);
    assert a == [] <==> a' == [];
    if a == [] {
      assert x == all[1..] && x' == all'[1..];
    } else {
      assert all[1..] == a[1..] + [c] + x && all'[1..] == a'[1..] + [c] + x';
      SplitAt(c, a[1..], x, a'[1..], x');
    }
  }

  lemma {:induction false} JoinedInjective(u: seq<string>, v: seq<string>)
    requires PlainWords(u) && PlainWords(v) && Joined(u) == Joined(v)
    ensures u == v
  {
    if |u| > 1 && |v| > 1 {
      assert Joined(u) == u[0] + [' '] + Joined(u[1..]) && Joined(v) == v[0] + [' '] + Joined(v[1..]);
      SplitAt(' ', u[0], Joined(u[1..]), v[0], Joined(v[1..]));
      JoinedInjective(u[1..], v[1..]);
      assert u == [u[0]] + u[1..] && v == [v[0]] + v[1..];
    } else {
      JoinedHasSpace(u);
      JoinedHasSpace(v);
    }
  }

  lemma JoinedHasSpace(words: seq<string>)
    requires PlainWords(words)
    ensures |words| > 1 <==> ' ' in Joined(words)
    ensures words == [] <==> Joined(words) == []
  {
    if |words| > 1 {
      assert Joined(words)[|words[0]|] == ' ';
    }
  }

  /** The text without surrounding white space and with its words one blank apart. */
  function Normal(s: string): string { Joined(Words(Trim(s))) }

  /** Normal texts are equal exactly when the words are. */
  lemma NormalByWords(a: string, b: string)
    ensures Normal(a) == Normal(b) <==> Words(Trim(a)) == Words(Trim(b))
  {
    WordsArePlain(Trim(a));
    WordsArePlain(Trim(b));
    if Normal(a) == Normal(b) { JoinedInjective(Words(Trim(a)), Words(Trim(b))); }
  }
}
