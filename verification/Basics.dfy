/** Shared vocabulary: identifiers, workspace scopes, digests and key-ordered tables. */
module Basics {

  /** A 128-bit UUID, compared in the byte order that redb's string keys also follow. */
  type Uuid = x: nat | x < 0x1_0000_0000_0000_0000_0000_0000_0000_0000

  datatype Option<+T> = None | Some(value: T)

  datatype Result<+T> = Ok(value: T) | Err(error: Failure)

  /** The error returns of the store, one constructor per `ensure!` or `context` message. */
  datatype Failure =
    | EmptyScope
    | EmptyName
    | EmptyContent
    | EmptyIdempotencyKey
    | IdempotencyKeyTooLong
    | MissingJob
    | MissingDocument
    | MissingPayload
    | EmptyError
    | WrongWorkspace
    | NotProcessing
    | NotDeadLetter
    | DocumentJobMismatch
    | NoIndexableChunks
    | AnnKeysExhausted
    | AnnKeyAlreadyMapped
    | DuplicateAnnKey
    | MissingManifest
    | GenerationExists
    | Interrupted
    | InvalidTransition
    | MissingReplacement
    | SelfSupersession
    | ReplacementNotPublished
    | InvalidConfidence
    | ExpiryInThePast
    | RetentionTooLong
    | InvalidAudience
    | MissingMemory
    | NotRetrievable
    | DuplicateGrant
    | ReviewNoteTooLong
    | BudgetOutOfRange
    | EmptyQuery
    | SearchFailed
    | QuotaExceeded
    | DigestMismatch

  /** An (organization, workspace) pair: the tenant boundary every table is filtered by. */
  datatype Scope = Scope(organization: string, workspace: string)

  /** SHA-256 seen as a free injective constructor. */
  datatype Digest = Sha256(preimage: string)

  predicate IsLeast(x: Uuid, s: set<Uuid>) {
    x in s && forall y :: y in s ==> x <= y
  }

  lemma LeastExists(s: set<Uuid>) returns (x: Uuid)
    requires s != {}
    ensures IsLeast(x, s)
  {
    x :| x in s;
    while !IsLeast(x, s)
      invariant x in s
      decreases x
    {
      var y :| y in s && y < x;
      x := y;
    }
  }

  function Least(s: set<Uuid>): (x: Uuid)
    requires s != {}
    ensures IsLeast(x, s)
  {
    assert exists x :: IsLeast(x, s) by { var x := LeastExists(s); }
    var x :| IsLeast(x, s);
    x
  }

  predicate Ascending(keys: seq<Uuid>) {
    forall i, j :: 0 <= i < j < |keys| ==> keys[i] < keys[j]
  }

  /** The order in which a redb table iterates its keys. */
  function InOrder(s: set<Uuid>): (r: seq<Uuid>)
    ensures |r| == |s|
    ensures forall x :: x in r <==> x in s
    ensures Ascending(r)
  {
    if s == {} then [] else
      var x := Least(s);
      [x] + InOrder(s - {x})
  }

  lemma NoElements<T>(s: seq<T>)
    ensures s == [] || exists x :: x in s
  {
    if s != [] { assert s[0] in s; }
  }

  /** A set has only one ascending listing. */
  lemma {:induction false} AscendingIsUnique(a: seq<Uuid>, b: seq<Uuid>)
    requires Ascending(a) && Ascending(b) && forall x :: x in a <==> x in b
    ensures a == b
  {
    if a == [] {
      NoElements(b);
    } else {
      assert a[0] in b && a[0] in a;
      assert b[0] in b;
      assert a[0] == b[0];
      forall x
        ensures x in a[1..] <==> x in b[1..]
      {
        assert x in a[1..] <==> x in a && x != a[0];
        assert x in b[1..] <==> x in b && x != b[0];
      }
      AscendingIsUnique(a[1..], b[1..]);
    }
  }

  /** The part of a table that a scan has already visited. */
  function Among<V>(m: map<Uuid, V>, keys: seq<Uuid>): map<Uuid, V> {
    map i | i in m && i in keys :: m[i]
  }

  lemma AmongNone<V>(m: map<Uuid, V>, keys: seq<Uuid>)
    ensures Among(m, keys[..0]) == map[]
  {
  }

  lemma AmongAll<V>(m: map<Uuid, V>, keys: seq<Uuid>)
    requires forall i :: i in m ==> i in keys
    ensures Among(m, keys[..|keys|]) == m
  {
    assert keys[..|keys|] == keys;
  }

  lemma AmongOneMore<V>(m: map<Uuid, V>, keys: seq<Uuid>, n: nat)
    requires n < |keys| && Ascending(keys)
    ensures keys[n] !in Among(m, keys[..n])
    ensures Among(m, keys[..n + 1])
            == if keys[n] in m then Among(m, keys[..n])[keys[n] := m[keys[n]]] else Among(m, keys[..n])
  {
    assert keys[..n + 1] == keys[..n] + [keys[n]];
  }

  ghost function SumOf<K(!new)>(m: map<K, nat>): nat
    decreases |m|
  {
    if m == map[] then 0
    else
      var k :| k in m;
      SmallerWithout(m, k);
      m[k] + SumOf(m - {k})
  }

  lemma SmallerWithout<K, V>(m: map<K, V>, k: K)
    requires k in m
    ensures |m - {k}| + 1 == |m|
  {
    assert (m - {k}).Keys == m.Keys - {k};
    assert |m| == |m.Keys| && |m - {k}| == |(m - {k}).Keys|;
  }

  lemma {:induction false} SumWithout<K(!new)>(m: map<K, nat>, k: K)
    requires k in m
    ensures SumOf(m) == m[k] + SumOf(m - {k})
    decreases |m|
  {
    var j :| j in m && SumOf(m) == m[j] + SumOf(m - {j});
    if j != k {
      SmallerWithout(m, j);
      SmallerWithout(m, k);
      SumWithout(m - {j}, k);
      SumWithout(m - {k}, j);
      assert m - {j} - {k} == m - {k} - {j};
    }
  }

  lemma SumUpdate<K(!new)>(m: map<K, nat>, k: K, v: nat)
    ensures SumOf(m[k := v]) == (if k in m then SumOf(m) - m[k] else SumOf(m)) + v
  {
    SumWithout(m[k := v], k);
    if k in m {
      SumWithout(m, k);
      assert m[k := v] - {k} == m - {k};
    } else {
      assert m[k := v] - {k} == m;
    }
  }

  function Concat<T>(parts: seq<seq<T>>): seq<T> {
    if parts == [] then [] else parts[0] + Concat(parts[1..])
  }

  lemma Associative<T>(a: seq<T>, b: seq<T>, c: seq<T>)
    ensures a + (b + c) == (a + b) + c
  {
  }

  lemma {:induction false} ConcatAppends<T>(a: seq<seq<T>>, b: seq<seq<T>>)
    ensures Concat(a + b) == Concat(a) + Concat(b)
  {
    if a == [] {
      assert a + b == b;
    } else {
      ConcatAppends(a[1..], b);
      assert (a + b)[1..] == a[1..] + b;
      Associative(a[0], Concat(a[1..]), Concat(b));
    }
  }

  lemma ConcatFew<T>(a: seq<T>)
    ensures Concat([a]) == a
    ensures Concat<T>([]) == []
  {
    assert [a][1..] == [];
  }
}
