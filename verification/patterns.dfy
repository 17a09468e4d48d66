/**
 * The regular expressions of the evidence redactors: classes in a row, some optional or repeated,
 * matched greedily with backtracking, and `replace` with the global flag.
 */
module Patterns {
  import opened Texts

  datatype Class = Digit | Space | Gap | Word | Is(unit: Unit) | Letter(unit: Unit)

  /** Gap is the class [\s-], Word is [a-z0-9._\-] without regard to case, Letter one letter without regard to case. */
  predicate In(cls: Class, c: Unit) {
    match cls
    case Digit => '0' as int <= c <= '9' as int
    case Space => IsSpace(c)
    case Gap => IsSpace(c) || c == '-' as int
    case Word =>
      || 'a' as int <= c <= 'z' as int || 'A' as int <= c <= 'Z' as int || '0' as int <= c <= '9' as int
      || c == '.' as int || c == '_' as int || c == '-' as int
    case Is(unit) => c == unit
    case Letter(unit) => c == unit || c + 32 == unit
  }

  datatype Pattern = End | One(cls: Class, rest: Pattern) | Maybe(cls: Class, rest: Pattern) | Many(cls: Class, rest: Pattern)

  function Size(p: Pattern): nat {
    if p.End? then 0 else 1 + Size(p.rest)
  }

  /** The texts a pattern denotes. */
  predicate Denotes(p: Pattern, w: Text)
    decreases Size(p) + |w|
  {
    var taken := p != End && w != [] && In(p.cls, w[0]);
    match p
    case End => w == []
    case One(_, rest) => taken && Denotes(rest, w[1..])
    case Maybe(_, rest) => Denotes(rest, w) || (taken && Denotes(rest, w[1..]))
    case Many(_, rest) => Denotes(rest, w) || (taken && Denotes(p, w[1..]))
  }

  /** How much of `s` the pattern takes from its start: greedy, backing off when the rest does not follow. */
  function Match(p: Pattern, s: Text): (r: Option<nat>)
    ensures r.Some? ==> r.value <= |s| && (p.One? ==> r.value > 0)
    decreases Size(p) + |s|
  {
    if p.End? then Some(0)
    else
      var taken :=
        if s == [] || !In(p.cls, s[0]) then None
        else Match(if p.Many? then p else p.rest, s[1..]);
      if taken.Some? then Some(taken.value + 1)
      else if p.One? then None
      else Match(p.rest, s)
  }

  lemma {:induction false} MatchDenotes(p: Pattern, s: Text)
    requires Match(p, s).Some?
    ensures Denotes(p, s[..Match(p, s).value])
    decreases Size(p) + |s|
  {
    if !p.End? {
      var next := if p.Many? then p else p.rest;
      if s != [] && In(p.cls, s[0]) && Match(next, s[1..]).Some? {
        MatchDenotes(next, s[1..]);
        assert s[..Match(p, s).value][1..] == s[1..][..Match(next, s[1..]).value];
      } else {
        MatchDenotes(p.rest, s);
      }
    }
  }

  /** The matcher misses nothing: it finds a match as soon as some start of the text is denoted. */
  lemma {:induction false} DenotedMatches(p: Pattern, s: Text, n: nat)
    requires n <= |s| && Denotes(p, s[..n])
    ensures Match(p, s).Some?
    decreases Size(p) + |s|
  {
    if !p.End? {
      if p.One? || !Denotes(p.rest, s[..n]) {
        assert s[..n][1..] == s[1..][..n - 1];
        DenotedMatches(if p.Many? then p else p.rest, s[1..], n - 1);
      } else {
        DenotedMatches(p.rest, s, n);
      }
    }
  }

  /** `test`: the pattern matches somewhere. */
  predicate Test(p: Pattern, s: Text) {
    Match(p, s).Some? || (s != [] && Test(p, s[1..]))
  }

  lemma {:induction false} TestSomewhere(p: Pattern, s: Text)
    ensures Test(p, s) <==> exists k, n | 0 <= k <= n <= |s| :: Denotes(p, s[k..n])
  {
    if Match(p, s).Some? {
      MatchDenotes(p, s);
      assert s[0..Match(p, s).value] == s[..Match(p, s).value];
    } else {
      if s != [] {
        TestSomewhere(p, s[1..]);
        assert forall k, n | 0 <= k <= n <= |s[1..]| :: s[1..][k..n] == s[k + 1..n + 1];
      }
      if k, n :| 0 <= k <= n <= |s| && Denotes(p, s[k..n]) {
        if k == 0 {
          assert s[0..n] == s[..n];
          DenotedMatches(p, s, n);
        } else {
          assert s[1..][k - 1..n - 1] == s[k..n];
        }
      }
    }
  }

  /** `replace` with the global flag: left to right, going on after what was replaced. */
  function Replace(p: Pattern, r: Text, s: Text): Text
    requires p.One?
    decreases |s|
  {
    if s == [] then []
    else if Match(p, s).Some? then r + Replace(p, r, s[Match(p, s).value..])
    else [s[0]] + Replace(p, r, s[1..])
  }

  /** Up to the first match nothing changes; the match is replaced; the rest is treated alike. */
  lemma {:induction false} ReplaceFirst(p: Pattern, r: Text, s: Text, i: nat)
    requires p.One? && i <= |s| && Match(p, s[i..]).Some?
    requires forall k | 0 <= k < i :: Match(p, s[k..]).None?
    ensures Replace(p, r, s) == s[..i] + r + Replace(p, r, s[i + Match(p, s[i..]).value..])
  {
    hide Match, Replace;
    ReplaceStep(p, r, s, i);
    assert s[0..] == s;
    if i == 0 {
      assert s[..0] + r == r;
    } else {
      assert Match(p, s[0..]).None?;
      NoneInTail(p, s, i);
      ReplaceFirst(p, r, s[1..], i - 1);
      OneUnitMore(s, i, Match(p, s[i..]).value, r);
    }
  }

  lemma NoneInTail(p: Pattern, s: Text, i: nat)
    requires 0 < i <= |s| && forall k | 0 <= k < i :: Match(p, s[k..]).None?
    ensures s[1..][i - 1..] == s[i..] && forall k | 0 <= k < i - 1 :: Match(p, s[1..][k..]).None?
  {
    hide Match;
    forall k | 0 <= k < i - 1 ensures Match(p, s[1..][k..]).None? {
      assert s[1..][k..] == s[k + 1..];
    }
  }

  lemma OneUnitMore(s: Text, i: nat, n: nat, r: Text)
    requires 0 < i && i + n <= |s|
    ensures s[1..][i - 1 + n..] == s[i + n..]
    ensures forall rest: Text :: [s[0]] + (s[1..][..i - 1] + r + rest) == s[..i] + r + rest
  {
    assert s[..i] == [s[0]] + s[1..][..i - 1];
  }

  lemma ReplaceStep(p: Pattern, r: Text, s: Text, i: nat)
    requires p.One? && i <= |s| && Match(p, s[i..]).Some?
    ensures s != []
    ensures Replace(p, r, s) == if Match(p, s).Some? then r + Replace(p, r, s[Match(p, s).value..])
                                else [s[0]] + Replace(p, r, s[1..])
  {
    hide Match;
  }

  lemma {:induction false} ReplaceNothing(p: Pattern, r: Text, s: Text)
    requires p.One? && !Test(p, s)
    ensures Replace(p, r, s) == s
  {
    if s != [] {
      ReplaceNothing(p, r, s[1..]);
    }
  }

  // ------------------------------------------------------------ what a replacement cannot create

  predicate Within(p: Pattern, classes: set<Class>) {
    p.End? || (p.cls in classes && Within(p.rest, classes))
  }

  predicate Barrier(classes: set<Class>, c: Unit) {
    forall cls | cls in classes :: !In(cls, c)
  }

  predicate Alike(classes: set<Class>, c: Unit, d: Unit) {
    forall cls | cls in classes :: In(cls, c) <==> In(cls, d)
  }

  /** As far as the classes can see, `a` goes like `b` until a unit none of them takes. */
  predicate Shadows(classes: set<Class>, a: Text, b: Text) {
    a == [] || Barrier(classes, a[0])
    || (b != [] && Alike(classes, a[0], b[0]) && Shadows(classes, a[1..], b[1..]))
  }

  lemma {:induction false} ShadowMatch(classes: set<Class>, p: Pattern, a: Text, b: Text)
    requires Within(p, classes) && Shadows(classes, a, b) && Match(p, a).Some?
    ensures Match(p, b).Some?
    decreases Size(p) + |a|
  {
    if !p.End? {
      var next := if p.Many? then p else p.rest;
      if a != [] && In(p.cls, a[0]) && Match(next, a[1..]).Some? {
        assert !Barrier(classes, a[0]) && In(p.cls, b[0]);
        ShadowMatch(classes, next, a[1..], b[1..]);
      } else {
        ShadowMatch(classes, p.rest, a, b);
      }
    }
  }

  lemma {:induction false} ShadowSelf(classes: set<Class>, s: Text)
    ensures Shadows(classes, s, s)
  {
    if s != [] {
      ShadowSelf(classes, s[1..]);
    }
  }

  /** The replacement shadows whatever the pattern takes. */
  ghost predicate Covers(classes: set<Class>, q: Pattern, r: Text) {
    forall s, t | Match(q, s).Some? :: Shadows(classes, r + t, s)
  }

  predicate NoStart(p: Pattern, r: Text) {
    p.One? && forall i | 0 <= i < |r| :: !In(p.cls, r[i])
  }

  lemma {:induction false} TestAfter(p: Pattern, r: Text, t: Text)
    requires NoStart(p, r) && Test(p, r + t)
    ensures Test(p, t)
  {
    if r == [] {
      assert r + t == t;
    } else {
      assert (r + t)[1..] == r[1..] + t;
      TestAfter(p, r[1..], t);
    }
  }

  lemma {:induction false} TestSuffix(p: Pattern, s: Text, k: nat)
    requires k <= |s| && Test(p, s[k..])
    ensures Test(p, s)
  {
    if k == 0 {
      assert s[0..] == s;
    } else {
      assert s[1..][k - 1..] == s[k..];
      TestSuffix(p, s[1..], k - 1);
    }
  }

  lemma {:induction false} ShadowReplace(classes: set<Class>, q: Pattern, r: Text, s: Text)
    requires q.One? && Covers(classes, q, r)
    ensures Shadows(classes, Replace(q, r, s), s)
    decreases |s|
  {
    if s != [] && Match(q, s).None? {
      ShadowReplace(classes, q, r, s[1..]);
      assert Replace(q, r, s)[1..] == Replace(q, r, s[1..]);
      assert Alike(classes, s[0], s[0]);
    }
  }

  /** Replacing what q matches creates no match of p. */
  lemma {:induction false} CreatesNone(classes: set<Class>, p: Pattern, q: Pattern, r: Text, s: Text)
    requires Within(p, classes) && q.One? && Covers(classes, q, r) && r != [] && NoStart(p, r[1..])
    requires Test(p, Replace(q, r, s))
    ensures Test(p, s)
    decreases |s|
  {
    var out := Replace(q, r, s);
    if Match(p, out).Some? {
      ShadowReplace(classes, q, r, s);
      ShadowMatch(classes, p, out, s);
    } else if s != [] {
      hide Covers, Within, Match;
      if Match(q, s).Some? {
        var n := Match(q, s).value;
        assert out[1..] == r[1..] + Replace(q, r, s[n..]);
        TestAfter(p, r[1..], Replace(q, r, s[n..]));
        MatchSome(q, s);
        CreatesNone(classes, p, q, r, s[n..]);
        TestSuffix(p, s, n);
      } else {
        assert out[1..] == Replace(q, r, s[1..]);
        CreatesNone(classes, p, q, r, s[1..]);
        TestSuffix(p, s, 1);
      }
    }
  }

  lemma MatchSome(p: Pattern, s: Text)
    requires p.One? && Match(p, s).Some?
    ensures 0 < Match(p, s).value <= |s|
  {
  }

  /** Replacing what p matches leaves no match of p. */
  lemma {:induction false} LeavesNone(classes: set<Class>, p: Pattern, r: Text, s: Text)
    requires Within(p, classes) && p.One? && Covers(classes, p, r) && r != [] && NoStart(p, r[1..])
    requires forall t :: Match(p, r + t).None?
    ensures !Test(p, Replace(p, r, s))
    decreases |s|
  {
    var out := Replace(p, r, s);
    if s != [] {
      if Match(p, s).Some? {
        var rest := Replace(p, r, s[Match(p, s).value..]);
        LeavesNone(classes, p, r, s[Match(p, s).value..]);
        if Test(p, out) {
          assert out[1..] == r[1..] + rest;
          TestAfter(p, r[1..], rest);
        }
      } else {
        LeavesNone(classes, p, r, s[1..]);
        assert out[1..] == Replace(p, r, s[1..]);
        if Match(p, out).Some? {
          ShadowReplace(classes, p, r, s);
          ShadowMatch(classes, p, out, s);
        }
      }
    }
  }

  /** Cutting a text and closing it with a barrier creates no match. */
  lemma {:induction false} CutCreatesNone(classes: set<Class>, p: Pattern, s: Text, n: nat, c: Unit)
    requires Within(p, classes) && p.One? && Barrier(classes, c) && n <= |s|
    requires Test(p, s[..n] + [c])
    ensures Test(p, s)
  {
    var cut := s[..n] + [c];
    if Match(p, cut).Some? {
      ShadowCut(classes, s, n, c);
      ShadowMatch(classes, p, cut, s);
    } else if n > 0 {
      assert cut[1..] == s[1..][..n - 1] + [c];
      CutCreatesNone(classes, p, s[1..], n - 1, c);
    }
  }

  lemma {:induction false} ShadowCut(classes: set<Class>, s: Text, n: nat, c: Unit)
    requires Barrier(classes, c) && n <= |s|
    ensures Shadows(classes, s[..n] + [c], s)
  {
    if n > 0 {
      assert (s[..n] + [c])[1..] == s[1..][..n - 1] + [c];
      ShadowCut(classes, s[1..], n - 1, c);
    }
  }
}
