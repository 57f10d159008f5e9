/** Dotted module names: their sorted order, and the nearest known ancestor of an imported name. */
module ModuleNames {
  import opened Common

  // ----- Python's sorted() over a set of strings -----

  predicate Before(a: string, b: string) {
    a == [] || (b != [] && (a[0] < b[0] || (a[0] == b[0] && Before(a[1..], b[1..]))))
  }

  /** The order of strings: a prefix comes first, and otherwise the first differing character decides. */
  lemma {:induction false} BeforeExactly(a: string, b: string)
    ensures Before(a, b) <==> a <= b || exists k :: 0 <= k < |a| && k < |b| && DiffersUpwards(a, b, k)
  {
    if a != [] && b != [] && a[0] == b[0] {
      BeforeExactly(a[1..], b[1..]);
      if exists k :: 0 <= k < |a| - 1 && k < |b| - 1 && DiffersUpwards(a[1..], b[1..], k) {
        var k :| 0 <= k < |a| - 1 && k < |b| - 1 && DiffersUpwards(a[1..], b[1..], k);
        assert a[..k + 1] == [a[0]] + a[1..][..k] && b[..k + 1] == [b[0]] + b[1..][..k];
        assert DiffersUpwards(a, b, k + 1);
      }
      if exists k :: 0 <= k < |a| && k < |b| && DiffersUpwards(a, b, k) {
        var k :| 0 <= k < |a| && k < |b| && DiffersUpwards(a, b, k);
        assert a[1..][..k - 1] == a[..k][1..] && b[1..][..k - 1] == b[..k][1..];
        assert DiffersUpwards(a[1..], b[1..], k - 1);
      }
      assert a == [a[0]] + a[1..] && b == [b[0]] + b[1..];
    } else if a != [] && b != [] && a[0] < b[0] {
      assert DiffersUpwards(a, b, 0);
    }
  }

  predicate DiffersUpwards(a: string, b: string, k: nat)
    requires k < |a| && k < |b|
  {
    a[..k] == b[..k] && a[k] < b[k]
  }

  lemma {:induction false} BeforeIsTotal(a: string, b: string)
    ensures Before(a, b) || Before(b, a)
    ensures Before(a, b) && Before(b, a) ==> a == b
  {
    if a != [] && b != [] && a[0] == b[0] {
      BeforeIsTotal(a[1..], b[1..]);
      assert a == [a[0]] + a[1..] && b == [b[0]] + b[1..];
    }
  }

  lemma {:induction false} BeforeIsTransitive(a: string, b: string, c: string)
    requires Before(a, b) && Before(b, c)
    ensures Before(a, c)
  {
    if a != [] && a[0] == b[0] && b[0] == c[0] {
      BeforeIsTransitive(a[1..], b[1..], c[1..]);
    }
  }

  predicate IsFirst(m: string, names: set<string>) {
    m in names && forall x :: x in names ==> Before(m, x)
  }

  lemma FirstExists(names: set<string>)
    requires names != {}
    ensures exists m :: IsFirst(m, names)
    decreases |names|
  {
    var x :| x in names;
    var rest := names - {x};
    if rest == {} {
      BeforeIsTotal(x, x);
      assert names == {x};
      assert IsFirst(x, names);
    } else {
      FirstExists(rest);
      var m :| IsFirst(m, rest);
      BeforeIsTotal(x, m);
      if Before(m, x) {
        assert IsFirst(m, names);
      } else {
        forall y | y in names ensures Before(x, y) {
          if y == x {
            BeforeIsTotal(x, x);
          } else {
            BeforeIsTransitive(x, m, y);
          }
        }
        assert IsFirst(x, names);
      }
    }
  }

  lemma FirstIsUnique(names: set<string>, a: string, b: string)
    requires IsFirst(a, names) && IsFirst(b, names)
    ensures a == b
  {
    BeforeIsTotal(a, b);
  }

  function First(names: set<string>): (m: string)
    requires names != {}
    ensures IsFirst(m, names)
  {
    FirstExists(names);
    assert forall a, b :: IsFirst(a, names) && IsFirst(b, names) ==> a == b by {
      forall a, b | IsFirst(a, names) && IsFirst(b, names) ensures a == b {
        FirstIsUnique(names, a, b);
      }
    }
    var m :| m in names && IsFirst(m, names);
    m
  }

  function Sorted(names: set<string>): (q: seq<string>)
    ensures forall x :: x in q <==> x in names
    ensures forall i, j :: 0 <= i < j < |q| ==> Before(q[i], q[j]) && q[i] != q[j]
    decreases |names|
  {
    if names == {} then [] else [First(names)] + Sorted(names - {First(names)})
  }

  // ----- The nearest known ancestor -----

  /** The position of the last dot, or -1. */
  function LastDot(name: string): (d: int)
    ensures -1 <= d < |name|
    ensures d >= 0 ==> name[d] == '.'
    ensures forall i :: d < i < |name| ==> name[i] != '.'
  {
    if name == "" then -1
    else if name[|name| - 1] == '.' then |name| - 1
    else LastDot(name[..|name| - 1])
  }

  /** p is name itself or a dotted prefix of it. */
  predicate Ancestor(p: string, name: string) {
    p == name || (|p| < |name| && p == name[..|p|] && name[|p|] == '.')
  }

  /** The longest ancestor among the known modules; None exactly when no ancestor is known. */
  predicate IsNearestKnown(r: Option<string>, name: string, known: set<string>) {
    match r
    case None => forall p :: p in known && p != "" ==> !Ancestor(p, name)
    case Some(p) => p in known && p != "" && Ancestor(p, name)
                    && forall q :: q in known && Ancestor(q, name) ==> |q| <= |p|
  }

  method CollapseToKnownModule(name: string, known: set<string>) returns (r: Option<string>)
    ensures IsNearestKnown(r, name, known)
  {
    var current := name;
    while current != ""
      invariant current == "" || Ancestor(current, name)
      invariant forall p :: p in known && p != "" && Ancestor(p, name) ==> |p| <= |current|
      decreases |current|
    {
      if current in known {
        return Some(current);
      }
      var dot := LastDot(current);
      forall p | p in known && p != "" && Ancestor(p, name) ensures dot >= 0 && |p| <= dot {
        if |p| == |current| {
          assert false;
        }
        assert current[|p|] == name[|p|] == '.';
      }
      if dot < 0 {
        return None;
      }
      current := current[..dot];
    }
    return None;
  }

  lemma NearestKnownIsUnique(name: string, known: set<string>, a: Option<string>, b: Option<string>)
    requires IsNearestKnown(a, name, known) && IsNearestKnown(b, name, known)
    ensures a == b
  {
    if a.Some? && b.Some? {
      assert |a.value| == |b.value|;
      assert a.value == name[..|a.value|] == b.value;
    }
  }
}
