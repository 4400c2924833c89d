/** Types and small helpers shared by the models. */
module VdsTypes {

  type u8 = x: int | 0 <= x < 256

  datatype Option<+T> = None | Some(value: T)

  datatype Result<+T> = Ok(value: T) | Err

  /** No element of `s` occurs twice. */
  ghost predicate Distinct<T>(s: seq<T>) {
    forall i, j :: 0 <= i < j < |s| ==> s[i] != s[j]
  }

  /** `q` without the first `u`: removal from a list. */
  function Without<T(==)>(q: seq<T>, u: T): seq<T> {
    if q == [] then [] else if q[0] == u then q[1..] else [q[0]] + Without(q[1..], u)
  }

  lemma {:induction false} WithoutMembers<T>(q: seq<T>, u: T)
    requires Distinct(q)
    ensures Distinct(Without(q, u))
    ensures forall x :: x in Without(q, u) <==> x in q && x != u
    ensures u !in q ==> Without(q, u) == q
    ensures |Without(q, u)| == if u in q then |q| - 1 else |q|
  {
    if q != [] {
      assert forall x :: x in q <==> x == q[0] || x in q[1..];
      assert q[0] !in q[1..];
      if q[0] != u {
        WithoutMembers(q[1..], u);
      }
    }
  }

  function Min(a: int, b: int): int {
    if a <= b then a else b
  }

  function Max(a: int, b: int): int {
    if a >= b then a else b
  }

  /** `count` zero bytes: the silence every audio path pads with. */
  function Silence(count: nat): (r: seq<u8>)
    ensures |r| == count && forall i :: 0 <= i < |r| ==> r[i] == 0
  {
    seq(count, _ => 0)
  }

  /** The pieces one after the other. */
  function Flatten<T>(pieces: seq<seq<T>>): seq<T> {
    if pieces == [] then [] else pieces[0] + Flatten(pieces[1..])
  }

  lemma {:induction false} FlattenAppend<T>(a: seq<seq<T>>, b: seq<seq<T>>)
    ensures Flatten(a + b) == Flatten(a) + Flatten(b)
  {
    if a == [] {
      assert a + b == b;
    } else {
      assert (a + b)[0] == a[0] && (a + b)[1..] == a[1..] + b;
      FlattenAppend(a[1..], b);
      assert a[0] + (Flatten(a[1..]) + Flatten(b)) == (a[0] + Flatten(a[1..])) + Flatten(b);
    }
  }

  lemma FlattenOne<T>(piece: seq<T>)
    ensures Flatten([piece]) == piece
  {
    assert [piece][1..] == [];
    assert piece + [] == piece;
  }

  /** `r` with `data` written over it at `offset`. */
  function Store(r: seq<u8>, offset: nat, data: seq<u8>): (w: seq<u8>)
    ensures |w| == |r|
  {
    if offset + |data| <= |r| then r[..offset] + data + r[offset + |data|..] else r
  }

  /** A memory copy. */
  method StoreBytes(buffer: array<u8>, offset: nat, data: seq<u8>)
    requires offset + |data| <= buffer.Length
    modifies buffer
    ensures buffer[..] == Store(old(buffer[..]), offset, data)
  {
    for i := 0 to |data|
      invariant forall k :: 0 <= k < i ==> buffer[offset + k] == data[k]
      invariant forall k :: 0 <= k < offset || offset + i <= k < buffer.Length ==> buffer[k] == old(buffer[k])
    {
      buffer[offset + i] := data[i];
    }
  }

  lemma TakeConcat<T>(a: seq<T>, b: seq<T>, k: nat)
    requires k <= |a| + |b|
    ensures (a + b)[..k] == if k <= |a| then a[..k] else a + b[..k - |a|]
  {
  }

  lemma DropConcat<T>(a: seq<T>, b: seq<T>, k: nat)
    requires k <= |a| + |b|
    ensures (a + b)[k..] == if k <= |a| then a[k..] + b else b[k - |a|..]
  {
  }
}
