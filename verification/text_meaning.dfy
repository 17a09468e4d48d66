/**
 * What `trim`, the test for a missing argument, `join` and the order of `sort` amount to, said by position
 * (ECMAScript Language Specification, String.prototype.trim, Array.prototype.join and the order of strings).
 */
module TextMeaning {
  import opened Texts

  /** The code units of white space and of line terminators. */
  predicate White(c: Unit) {
    || c == 0x0009 || c == 0x000A || c == 0x000B || c == 0x000C || c == 0x000D || c == 0x0020 || c == 0x00A0
    || c == 0x1680 || c == 0x2000 || c == 0x2001 || c == 0x2002 || c == 0x2003 || c == 0x2004 || c == 0x2005
    || c == 0x2006 || c == 0x2007 || c == 0x2008 || c == 0x2009 || c == 0x200A || c == 0x2028 || c == 0x2029
    || c == 0x202F || c == 0x205F || c == 0x3000 || c == 0xFEFF
  }

  /** The stretch from i to j is what stands between the white space at both ends. */
  predicate Core(s: Text, i: nat, j: nat) {
    && i <= j <= |s|
    && (forall k | 0 <= k < i :: White(s[k])) && (forall k | j <= k < |s| :: White(s[k]))
    && (i < j ==> !White(s[i]) && !White(s[j - 1]))
  }

  lemma WhiteIsSpace(c: Unit)
    ensures White(c) <==> IsSpace(c)
  {
  }

  lemma {:induction false} TrimStartCore(s: Text)
    ensures forall k | 0 <= k < |s| - |TrimStart(s)| :: White(s[k])
  {
    if s != [] && IsSpace(s[0]) {
      TrimStartCore(s[1..]);
      assert forall k | 0 < k < |s| :: s[k] == s[1..][k - 1];
    }
  }

  lemma {:induction false} TrimEndCore(s: Text)
    ensures forall k | |TrimEnd(s)| <= k < |s| :: White(s[k])
  {
    if s != [] && IsSpace(s[|s| - 1]) {
      TrimEndCore(s[..|s| - 1]);
    }
  }

  lemma TrimmedEnds(s: Text)
    ensures var t := Trim(s); t != [] ==> !White(t[0]) && !White(t[|t| - 1])
  {
    if Trim(s) != [] {
      assert Trim(s)[0] == TrimStart(s)[0];
      WhiteIsSpace(Trim(s)[0]);
      WhiteIsSpace(Trim(s)[|Trim(s)| - 1]);
    }
  }

  /** Trimming gives the core of the text, and a core there is. */
  lemma TrimIsCore(s: Text) returns (i: nat, j: nat)
    ensures Core(s, i, j) && Trim(s) == s[i..j]
  {
    var t := TrimStart(s);
    TrimStartCore(s);
    TrimEndCore(t);
    TrimmedEnds(s);
    hide White, IsSpace, TrimStart, TrimEnd;
    i, j := |s| - |t|, |s| - |t| + |TrimEnd(t)|;
    assert forall k | 0 <= k < |t| :: s[i + k] == t[k];
    forall k | j <= k < |s| ensures White(s[k]) {
      assert s[k] == t[k - i];
    }
  }

  /** The core of a text is its trimmed form, whichever way it is found. */
  lemma CoreIsTrim(s: Text, i: nat, j: nat)
    requires Core(s, i, j)
    ensures Trim(s) == s[i..j]
  {
    hide White, Trim;
    var a, b := TrimIsCore(s);
    if a < b {
      CoreCovers(s, a, b, i, j);
    }
    if i < j {
      CoreCovers(s, i, j, a, b);
    }
  }

  lemma CoreCovers(s: Text, i: nat, j: nat, a: nat, b: nat)
    requires Core(s, i, j) && Core(s, a, b) && i < j
    ensures a <= i && j <= b
  {
  }

  /** Nothing is left exactly when every unit is white space. */
  lemma BlankIff(s: Text)
    ensures Blank(s) <==> forall k | 0 <= k < |s| :: White(s[k])
    ensures Trim(s) == [] <==> forall k | 0 <= k < |s| :: White(s[k])
  {
    var i, j := TrimIsCore(s);
    forall k | 0 <= k < |s| ensures White(s[k]) <==> IsSpace(s[k]) {
      WhiteIsSpace(s[k]);
    }
    if i < j {
      assert !White(s[i]);
    }
  }

  // ------------------------------------------------------------ the order of texts

  /** The first is a proper start of the second, or smaller at the first place where they differ. */
  predicate Before(a: Text, b: Text) {
    exists k | 0 <= k <= |a| && k < |b| :: AgreeUpTo(a, b, k) && (k == |a| || a[k] < b[k])
  }

  predicate AgreeUpTo(a: Text, b: Text, k: nat) {
    k <= |a| && k <= |b| && forall i | 0 <= i < k :: a[i] == b[i]
  }

  lemma {:induction false} LexLeqIff(a: Text, b: Text)
    ensures LexLeq(a, b) <==> a == b || Before(a, b)
  {
    if a == [] || b == [] {
      assert b != [] ==> AgreeUpTo(a, b, 0);
    } else if a[0] != b[0] {
      DifferAtOnce(a, b);
    } else {
      LexLeqIff(a[1..], b[1..]);
      BeforeRest(a, b);
      assert a == [a[0]] + a[1..] && b == [b[0]] + b[1..];
    }
  }

  lemma DifferAtOnce(a: Text, b: Text)
    requires a != [] && b != [] && a[0] != b[0]
    ensures Before(a, b) <==> a[0] < b[0]
  {
    assert AgreeUpTo(a, b, 0);
  }

  lemma BeforeRest(a: Text, b: Text)
    requires a != [] && b != [] && a[0] == b[0]
    ensures Before(a, b) <==> Before(a[1..], b[1..])
  {
    if Before(a, b) {
      var k :| 0 <= k <= |a| && k < |b| && AgreeUpTo(a, b, k) && (k == |a| || a[k] < b[k]);
      assert AgreeUpTo(a[1..], b[1..], k - 1);
    }
    if Before(a[1..], b[1..]) {
      var k :| 0 <= k <= |a[1..]| && k < |b[1..]| && AgreeUpTo(a[1..], b[1..], k) && (k == |a[1..]| || a[1..][k] < b[1..][k]);
      assert AgreeUpTo(a, b, k + 1);
    }
  }

  /** The strict order of `sort` is the order of texts by their units. */
  lemma LexLessIff(a: Text, b: Text)
    ensures LexLess(a, b) <==> Before(a, b)
  {
    LexLeqIff(a, b);
  }

  // ------------------------------------------------------------ joined texts

  /** The first text, then each of the others behind a separator, built from the end. */
  function Chain(parts: seq<Text>, separator: Text): Text {
    if parts == [] then []
    else if |parts| == 1 then parts[0]
    else Chain(parts[..|parts| - 1], separator) + separator + parts[|parts| - 1]
  }

  lemma ChainMore(parts: seq<Text>, part: Text, separator: Text)
    requires parts != []
    ensures Chain(parts + [part], separator) == Chain(parts, separator) + separator + part
    ensures Chain([part], separator) == part
  {
    assert (parts + [part])[..|parts|] == parts;
  }

  lemma {:induction false} JoinIsChain(parts: seq<Text>, separator: Text)
    ensures Join(parts, separator) == Chain(parts, separator)
  {
    if |parts| > 1 {
      var n := |parts| - 1;
      JoinIsChain(parts[..n], separator);
      assert parts == parts[..n] + [parts[n]];
      JoinGrows(parts[..n], parts[n], separator);
    }
  }

  lemma {:induction false} JoinGrows(parts: seq<Text>, part: Text, separator: Text)
    requires parts != []
    ensures Join(parts + [part], separator) == Join(parts, separator) + separator + part
  {
    assert (parts + [part])[1..] == parts[1..] + [part];
    if |parts| > 1 {
      JoinGrows(parts[1..], part, separator);
    } else {
      assert (parts + [part])[1..] == [part];
    }
  }
}
