/** Small vocabulary shared by the models: optional values, results that carry an error,
    and the facts about sequences and finite sets that several proofs need. */
module Common {

  datatype Option<+T> = None | Some(value: T)

  datatype Result<+T, +E> = Ok(value: T) | Err(error: E)

  type Byte = b: nat | b < 256
  type Bytes = seq<Byte>

  /** The elements of a sequence, as a set. */
  function Elems<T>(s: seq<T>): set<T> {
    set x | x in s
  }

  ghost predicate NoDup<T>(s: seq<T>) {
    forall i, j :: 0 <= i < j < |s| ==> s[i] != s[j]
  }

  lemma NoDupSnoc<T>(s: seq<T>, x: T)
    requires NoDup(s) && x !in s
    ensures NoDup(s + [x])
  {
  }

  /** A sequence without repetition has as many elements as its set. */
  lemma {:induction false} NoDupSize<T>(s: seq<T>)
    requires NoDup(s)
    ensures |Elems(s)| == |s|
  {
    if s == [] {
      assert Elems(s) == {};
    } else {
      var n := |s| - 1;
      NoDupSize(s[..n]);
      assert s == s[..n] + [s[n]];
      assert Elems(s) == Elems(s[..n]) + {s[n]};
    }
  }

  lemma {:induction false} ElemsSize<T>(s: seq<T>)
    ensures |Elems(s)| <= |s|
  {
    if s == [] {
      assert Elems(s) == {};
    } else {
      var n := |s| - 1;
      ElemsSize(s[..n]);
      assert s == s[..n] + [s[n]];
      assert Elems(s) == Elems(s[..n]) + {s[n]};
    }
  }

  lemma SubsetSize<T>(a: set<T>, b: set<T>)
    requires a <= b
    ensures |a| <= |b|
  {
    assert b == a + (b - a);
  }

  /** The sequence has every element of the set, each once. */
  ghost predicate Lists<T(!new)>(xs: seq<T>, s: set<T>) {
    NoDup(xs) && Elems(xs) == s
  }

  /** A finite set can be listed in an order that ends with any one of its elements. */
  lemma {:induction false} ListedLast<T(!new)>(s: set<T>, last: T) returns (xs: seq<T>)
    requires last in s
    ensures Lists(xs, s) && xs != [] && xs[|xs| - 1] == last
  {
    var rest := s - {last};
    assert s == rest + {last};
    if rest == {} {
      xs := [last];
      assert Elems(xs) == {last};
    } else {
      var x :| x in rest;
      var ys := ListedLast(rest, x);
      assert last !in Elems(ys);
      NoDupSnoc(ys, last);
      xs := ys + [last];
      assert Elems(xs) == Elems(ys) + {last};
    }
  }

  /** A bound no element of a finite set reaches; so there is always a number that is not in it. */
  lemma {:induction false} Outside(s: set<nat>) returns (bound: nat)
    ensures bound !in s && forall x :: x in s ==> x < bound
  {
    if s == {} {
      bound := 0;
    } else {
      var x :| x in s;
      var rest := Outside(s - {x});
      bound := if x < rest then rest else x + 1;
      forall y | y in s
        ensures y < bound
      {
        assert y == x || y in s - {x};
      }
    }
  }

  lemma MulMonotone(a: int, b: int, c: nat)
    requires a <= b
    ensures a * c <= b * c
  {
    assert (b - a) * c >= 0;
    assert b * c == a * c + (b - a) * c;
  }

  /** The decimal digits of a number. */
  function Digits(n: nat): (s: string)
    ensures s != "" && forall k | 0 <= k < |s| :: '0' <= s[k] <= '9'
  {
    (if n < 10 then "" else Digits(n / 10)) + [('0' as int + n % 10) as char]
  }

  /** What decimal digits stand for. */
  function Number(s: string): nat
    requires forall k | 0 <= k < |s| :: '0' <= s[k] <= '9'
  {
    if s == "" then 0 else 10 * Number(s[..|s| - 1]) + (s[|s| - 1] as int - '0' as int)
  }

  /** The digits stand for the number, without a leading zero. */
  lemma {:induction false} DigitsStandFor(n: nat)
    ensures Number(Digits(n)) == n && (n > 0 ==> Digits(n)[0] != '0')
  {
    var s := Digits(n);
    if n < 10 {
      assert s[..0] == "";
    } else {
      DigitsStandFor(n / 10);
      assert s[..|s| - 1] == Digits(n / 10);
    }
  }

  lemma DigitsDiffer(m: nat, n: nat)
    requires Digits(m) == Digits(n)
    ensures m == n
  {
    DigitsStandFor(m);
    DigitsStandFor(n);
  }
}
