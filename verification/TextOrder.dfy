/** Strings in code point order, as Python compares them. */
module TextOrder {
  import opened StableSort

  predicate TextLe(a: string, b: string) {
    a == [] || (b != [] && if a[0] == b[0] then TextLe(a[1..], b[1..]) else a[0] < b[0])
  }

  lemma {:induction false} TextLeIsTotal(a: string, b: string)
    ensures TextLe(a, a)
    ensures TextLe(a, b) || TextLe(b, a)
    ensures TextLe(a, b) && TextLe(b, a) ==> a == b
    decreases |a|
  {
    if a != [] {
      if b != [] {
        TextLeIsTotal(a[1..], b[1..]);
        assert a == [a[0]] + a[1..] && b == [b[0]] + b[1..];
      } else {
        TextLeIsTotal(a[1..], b);
      }
    }
  }

  lemma {:induction false} TextLeIsTransitive(a: string, b: string, c: string)
    requires TextLe(a, b) && TextLe(b, c)
    ensures TextLe(a, c)
    decreases |a|
  {
    if a != [] && a[0] == b[0] == c[0] {
      TextLeIsTransitive(a[1..], b[1..], c[1..]);
    }
  }

  lemma TextLeIsTotalOrder()
    ensures TotalOrder(TextLe)
  {
    forall a, b {
      TextLeIsTotal(a, b);
    }
    forall a, b, c | TextLe(a, b) && TextLe(b, c) {
      TextLeIsTransitive(a, b, c);
    }
  }

  /** At the first difference the smaller character decides; without one, the shorter string comes first. */
  lemma {:induction false} TextLeExactlyWhen(a: string, b: string)
    ensures TextLe(a, b) <==> a <= b || exists i :: 0 <= i < |a| && i < |b| && a[..i] == b[..i] && a[i] < b[i]
    decreases |a|
  {
    if a != [] && b != [] && a[0] == b[0] {
      var s, t := a[1..], b[1..];
      TextLeExactlyWhen(s, t);
      assert a == [a[0]] + s && b == [a[0]] + t;
      if i :| 0 <= i < |s| && i < |t| && s[..i] == t[..i] && s[i] < t[i] {
        assert a[..i + 1] == [a[0]] + s[..i] && b[..i + 1] == [a[0]] + t[..i];
      }
      if i :| 0 <= i < |a| && i < |b| && a[..i] == b[..i] && a[i] < b[i] {
        assert i > 0 && a[..i] == [a[0]] + s[..i - 1] && b[..i] == [a[0]] + t[..i - 1];
        assert s[..i - 1] == a[..i][1..] == b[..i][1..] == t[..i - 1];
      }
    } else if a != [] && b != [] {
      assert a[..0] == b[..0];
    }
  }
}
