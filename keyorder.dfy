/**
 * The order keys are sorted in: lexicographic on characters, a proper
 * prefix coming first. A Dafny `char` is a Unicode scalar value, while
 * JavaScript's default comparison works on UTF-16 code units. The two
 * orders agree on strings whose characters all lie below U+10000; they can
 * differ once a character at or above U+10000 is compared with one in
 * U+E000..U+FFFF.
 */
module KeyOrder {
  /** `a` sorts strictly before `b`. */
  predicate Below(a: string, b: string) {
    if |a| == 0 then |b| > 0
    else |b| > 0 && (a[0] < b[0] || (a[0] == b[0] && Below(a[1..], b[1..])))
  }

  /** `a` is a proper prefix of `b`. */
  ghost predicate ProperPrefix(a: string, b: string) {
    |a| < |b| && a == b[..|a|]
  }

  /** `a` and `b` agree before position `i`, where `a` has the lower character. */
  ghost predicate LowerAt(a: string, b: string, i: nat) {
    i < |a| && i < |b| && a[..i] == b[..i] && a[i] < b[i]
  }

  /** With equal first characters, prefixes and first differences move one place along. */
  lemma ShiftByOne(a: string, b: string)
    requires |a| > 0 && |b| > 0 && a[0] == b[0]
    ensures ProperPrefix(a, b) <==> ProperPrefix(a[1..], b[1..])
    ensures forall i: nat :: LowerAt(a, b, i + 1) <==> LowerAt(a[1..], b[1..], i)
    ensures !LowerAt(a, b, 0)
  {
    forall i: nat ensures LowerAt(a, b, i + 1) <==> LowerAt(a[1..], b[1..], i) {
      if i + 1 <= |a| && i + 1 <= |b| {
        assert a[..i + 1] == [a[0]] + a[1..][..i];
        assert b[..i + 1] == [b[0]] + b[1..][..i];
      }
    }
    if |a| < |b| {
      assert a == [a[0]] + a[1..] && b[..|a|] == [b[0]] + b[1..][..|a| - 1];
    }
  }

  /**
   * `Below` is the usual lexicographic order: `a` is a proper prefix of `b`,
   * or at the first position where they differ `a` has the lower character.
   */
  lemma {:induction false} BelowAtFirstDifference(a: string, b: string)
    ensures Below(a, b) <==> ProperPrefix(a, b) || exists i: nat :: LowerAt(a, b, i)
  {
    if |a| > 0 && |b| > 0 {
      if a[0] < b[0] {
        assert LowerAt(a, b, 0);
      } else if a[0] == b[0] {
        BelowAtFirstDifference(a[1..], b[1..]);
        ShiftByOne(a, b);
        if exists i: nat :: LowerAt(a, b, i) {
          var i: nat :| LowerAt(a, b, i);
          assert LowerAt(a[1..], b[1..], i - 1);
        }
        if exists i: nat :: LowerAt(a[1..], b[1..], i) {
          var i: nat :| LowerAt(a[1..], b[1..], i);
          assert LowerAt(a, b, i + 1);
        }
      }
    }
  }

  lemma BelowIrreflexive(a: string)
    ensures !Below(a, a)
  {
    if |a| > 0 { BelowIrreflexive(a[1..]); }
  }

  lemma BelowAsymmetric(a: string, b: string)
    requires Below(a, b)
    ensures !Below(b, a)
  {
    if |a| > 0 && a[0] == b[0] { BelowAsymmetric(a[1..], b[1..]); }
  }

  lemma BelowTransitive(a: string, b: string, c: string)
    requires Below(a, b) && Below(b, c)
    ensures Below(a, c)
  {
    if |a| > 0 && a[0] == b[0] && b[0] == c[0] {
      BelowTransitive(a[1..], b[1..], c[1..]);
    }
  }

  lemma BelowTotal(a: string, b: string)
    requires a != b
    ensures Below(a, b) || Below(b, a)
  {
    if |a| > 0 && |b| > 0 && a[0] == b[0] {
      assert a == [a[0]] + a[1..] && b == [b[0]] + b[1..];
      BelowTotal(a[1..], b[1..]);
    }
  }

  /** `k` is the first of `keys` in this order. */
  ghost predicate IsLeast(k: string, keys: set<string>) {
    k in keys && forall j :: j in keys && j != k ==> Below(k, j)
  }

  lemma {:induction false} LeastExists(keys: set<string>)
    requires keys != {}
    ensures exists k :: IsLeast(k, keys)
    decreases |keys|
  {
    var x :| x in keys;
    if keys == {x} {
      assert IsLeast(x, keys);
    } else {
      var rest := keys - {x};
      LeastExists(rest);
      var m :| IsLeast(m, rest);
      if Below(x, m) {
        forall j | j in keys && j != x ensures Below(x, j) {
          if j != m { BelowTransitive(x, m, j); }
        }
        assert IsLeast(x, keys);
      } else {
        BelowTotal(x, m);
        assert IsLeast(m, keys);
      }
    }
  }

  lemma LeastUnique(k1: string, k2: string, keys: set<string>)
    requires IsLeast(k1, keys) && IsLeast(k2, keys)
    ensures k1 == k2
  {
    if k1 != k2 { BelowAsymmetric(k1, k2); }
  }

  /** The first key of a non-empty set. */
  ghost function Least(keys: set<string>): (k: string)
    requires keys != {}
    ensures IsLeast(k, keys)
  {
    LeastExists(keys);
    var k :| IsLeast(k, keys); k
  }
}
