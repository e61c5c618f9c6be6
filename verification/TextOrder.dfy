/** The byte-wise order of text keys, and least elements of finite sets under a strict order. */
module TextOrder {

  predicate TextBelow(a: string, b: string) {
    if b == "" then false
    else if a == "" then true
    else if a[0] != b[0] then a[0] < b[0]
    else TextBelow(a[1..], b[1..])
  }

  ghost predicate StrictTotalOrder<T(!new)>(below: (T, T) -> bool) {
    && (forall x :: !below(x, x))
    && (forall x, y, z :: below(x, y) && below(y, z) ==> below(x, z))
    && (forall x, y :: x == y || below(x, y) || below(y, x))
  }

  lemma {:induction false} TextIrreflexive(a: string)
    ensures !TextBelow(a, a)
  {
    if a != "" {
      TextIrreflexive(a[1..]);
    }
  }

  lemma {:induction false} TextTransitive(a: string, b: string, c: string)
    requires TextBelow(a, b) && TextBelow(b, c)
    ensures TextBelow(a, c)
  {
    if a != "" && a[0] == b[0] == c[0] {
      TextTransitive(a[1..], b[1..], c[1..]);
    }
  }

  lemma {:induction false} TextTotal(a: string, b: string)
    ensures a == b || TextBelow(a, b) || TextBelow(b, a)
  {
    if a != "" && b != "" && a[0] == b[0] {
      TextTotal(a[1..], b[1..]);
      assert a == [a[0]] + a[1..] && b == [b[0]] + b[1..];
    }
  }

  /** The texts agree before place k, where `a` ends first or has the smaller character. */
  ghost predicate BelowAt(a: string, b: string, k: nat) {
    k <= |a| && k < |b| && a[..k] == b[..k] && (k == |a| || a[k] < b[k])
  }

  lemma BelowAtTail(a: string, b: string, k: nat)
    requires a != "" && b != "" && a[0] == b[0]
    ensures BelowAt(a, b, k + 1) <==> BelowAt(a[1..], b[1..], k)
  {
    if k < |a| && k < |b| {
      assert a[..k + 1] == [a[0]] + a[1..][..k] && b[..k + 1] == [b[0]] + b[1..][..k];
      assert a[..k + 1] == b[..k + 1] ==> a[1..][..k] == a[..k + 1][1..] == b[..k + 1][1..] == b[1..][..k];
    }
  }

  /** Text order is decided at the first place where the texts differ. */
  lemma {:induction false} TextBelowIff(a: string, b: string)
    ensures TextBelow(a, b) <==> exists k: nat :: BelowAt(a, b, k)
  {
    if a != "" && b != "" && a[0] == b[0] {
      TextBelowIff(a[1..], b[1..]);
      if j: nat :| BelowAt(a[1..], b[1..], j) {
        BelowAtTail(a, b, j);
      }
      if k: nat :| BelowAt(a, b, k) {
        BelowAtTail(a, b, k - 1);
      }
    } else {
      DecidedAtOnce(a, b);
    }
  }

  lemma DecidedAtOnce(a: string, b: string)
    requires a == "" || b == "" || a[0] != b[0]
    ensures TextBelow(a, b) <==> exists k: nat :: BelowAt(a, b, k)
  {
    assert TextBelow(a, b) ==> BelowAt(a, b, 0);
    assert forall k: nat :: 0 < k <= |a| && k <= |b| && a[..k] == b[..k] ==> a[..k][0] == b[..k][0];
  }

  lemma TextIsStrictTotalOrder()
    ensures StrictTotalOrder(TextBelow)
  {
    forall a ensures !TextBelow(a, a) { TextIrreflexive(a); }
    forall a, b, c | TextBelow(a, b) && TextBelow(b, c) ensures TextBelow(a, c) { TextTransitive(a, b, c); }
    forall a, b ensures a == b || TextBelow(a, b) || TextBelow(b, a) { TextTotal(a, b); }
  }

  ghost predicate IsLeast<T(!new)>(below: (T, T) -> bool, s: set<T>, m: T) {
    m in s && forall x :: x in s ==> x == m || below(m, x)
  }

  /** Every non-empty finite set has exactly one least element. */
  lemma {:induction false} LeastExists<T(!new)>(below: (T, T) -> bool, s: set<T>)
    requires StrictTotalOrder(below)
    requires s != {}
    ensures exists m :: IsLeast(below, s, m)
    decreases |s|
  {
    var x :| x in s;
    if s == {x} {
      assert IsLeast(below, s, x);
    } else {
      LeastExists(below, s - {x});
      var m :| IsLeast(below, s - {x}, m);
      if below(x, m) {
        forall y | y in s ensures y == x || below(x, y) {
          assert y == x || y == m || below(m, y);
        }
        assert IsLeast(below, s, x);
      } else {
        assert IsLeast(below, s, m);
      }
    }
  }

  lemma LeastUnique<T(!new)>(below: (T, T) -> bool, s: set<T>, m: T, n: T)
    requires StrictTotalOrder(below)
    requires IsLeast(below, s, m) && IsLeast(below, s, n)
    ensures m == n
  {
  }

  predicate LeastText(s: set<string>, m: string) {
    m in s && forall x :: x in s ==> x == m || TextBelow(m, x)
  }

  lemma LeastTextExists(s: set<string>)
    requires s != {}
    ensures exists m :: LeastText(s, m)
  {
    TextIsStrictTotalOrder();
    LeastExists(TextBelow, s);
    var m :| IsLeast(TextBelow, s, m);
    assert LeastText(s, m);
  }

  /** The keys of a set in text order, each once. */
  method SortKeys(keys: set<string>) returns (order: seq<string>)
    ensures forall k :: k in order <==> k in keys
    ensures forall i, j :: 0 <= i < j < |order| ==> order[i] != order[j] && TextBelow(order[i], order[j])
  {
    order := [];
    var rest := keys;
    while rest != {}
      invariant rest <= keys
      invariant forall k :: k in order <==> k in keys && k !in rest
      invariant forall i, j :: 0 <= i < j < |order| ==> order[i] != order[j] && TextBelow(order[i], order[j])
      invariant forall i, k :: 0 <= i < |order| && k in rest ==> TextBelow(order[i], k)
      decreases |rest|
    {
      LeastTextExists(rest);
      var least :| least in rest && LeastText(rest, least);
      order := order + [least];
      rest := rest - {least};
    }
  }
}
