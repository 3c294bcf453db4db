/** Shared vocabulary of the network modules. */
module Prelude {

  datatype Option<+T> = None | Some(value: T)

  datatype NetError =
    | InvalidMessage
    | DeserializeError
    | VerifyingError
    | InboxOverflow
    | OutboxOverflow
    | ReadError
    | RecvError
    | SigningError
    | SendError
    | WriteError
    | PeerNotConnected
    | PermanentlyDrained

  datatype Result<+T> = Ok(value: T) | Err(error: NetError)

  function Failure<T>(r: Result<T>): (e: Option<NetError>)
  {
    if r.Ok? then None else Some(r.error)
  }

  function Max(a: nat, b: nat): (m: nat)
  {
    if a < b then b else a
  }

  predicate NoDups<T(==)>(s: seq<T>) {
    forall i, j :: 0 <= i < j < |s| ==> s[i] != s[j]
  }

  lemma {:induction false} SubsetSize<T>(a: set<T>, b: set<T>)
    requires a <= b
    ensures |a| <= |b| && (a != b ==> |a| < |b|)
  {
    if a != {} {
      var x :| x in a;
      SubsetSize(a - {x}, b - {x});
      assert a == (a - {x}) + {x} && b == (b - {x}) + {x};
    } else if b != {} {
      var x :| x in b;
    }
  }

  // ---- facts about sequences, named so that proofs can use them one at a time ----

  lemma Assoc<T>(a: seq<T>, b: seq<T>, c: seq<T>)
    ensures a + (b + c) == (a + b) + c
  {
  }

  lemma Nil<T>(a: seq<T>)
    ensures a + [] == a && [] + a == a
  {
  }

  lemma Cons<T>(a: seq<T>, b: seq<T>)
    requires a != []
    ensures (a + b)[0] == a[0] && (a + b)[1..] == a[1..] + b && a == [a[0]] + a[1..]
  {
  }

  /** Slices of a longer sequence that lie within its beginning. */
  lemma Slice<T>(s: seq<T>, more: seq<T>, i: nat, j: nat)
    requires i <= j <= |s|
    ensures (s + more)[i..j] == s[i..j] && (s + more)[..j] == s[..j]
    ensures (s + more)[j..] == s[j..] + more
  {
  }

  lemma Split<T>(s: seq<T>, i: nat)
    requires i <= |s|
    ensures s[..i] + s[i..] == s && s[|s|..] == [] && s[..|s|] == s && s[0..] == s && s[..0] == []
  {
  }

  lemma DropDrop<T>(s: seq<T>, i: nat, j: nat)
    requires i + j <= |s|
    ensures s[i..][j..] == s[i + j..] && s[i..][..j] == s[i..i + j]
  {
  }

  lemma TakeSnoc<T>(s: seq<T>, i: nat)
    requires i < |s|
    ensures s[..i + 1] == s[..i] + [s[i]] && s[i..] == [s[i]] + s[i + 1..]
  {
  }

  lemma PrefixMore<T>(a: seq<T>, b: seq<T>, c: seq<T>)
    ensures a <= a + b && (b <= c ==> a + b <= a + c)
  {
  }
}
