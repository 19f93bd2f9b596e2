/** The document collections the services read and write, seen as in-memory
    maps from identifier to record. A find that sorts by name and takes the
    first hit is modelled by the least matching key under the order
    (name, then identifier). */
module Store {

  /** Document identifiers; `NilId` is the zero identifier, never a key. */
  type Id = nat
  const NilId: Id := 0

  datatype Option<T> = None | Some(value: T)

  /** Outcome of a single-record lookup. */
  datatype Lookup<T> = Found(value: T) | NotFound | Failure

  /** The error kinds of the services: a lookup miss (with its message), a
      rejected argument, and a failure of the storage driver. */
  datatype Error = NotFoundError(message: string) | InvalidArgument(message: string) | StorageFailure

  datatype Result<T> = Ok(value: T) | Err(error: Error)

  /** Binary (code-unit) lexicographic order on strings, as the store sorts. */
  predicate StrLe(a: string, b: string)
  {
    a == [] || (b != [] && (a[0] < b[0] || (a[0] == b[0] && StrLe(a[1..], b[1..]))))
  }

  lemma {:induction false} StrLeTotal(a: string, b: string)
    ensures StrLe(a, b) || StrLe(b, a)
  {
    if a != [] && b != [] && a[0] == b[0] {
      StrLeTotal(a[1..], b[1..]);
    }
  }

  lemma {:induction false} StrLeAntisymmetric(a: string, b: string)
    requires StrLe(a, b) && StrLe(b, a)
    ensures a == b
  {
    if a != [] {
      StrLeAntisymmetric(a[1..], b[1..]);
      assert a == [a[0]] + a[1..] && b == [b[0]] + b[1..];
    }
  }

  lemma {:induction false} StrLeTransitive(a: string, b: string, c: string)
    requires StrLe(a, b) && StrLe(b, c)
    ensures StrLe(a, c)
  {
    if a != [] && a[0] == b[0] && b[0] == c[0] {
      StrLeTransitive(a[1..], b[1..], c[1..]);
    }
  }

  /** Whether the record named `n1` under key `k1` comes no later than the
      one named `n2` under `k2` in a name-sorted result; equal names keep
      key order. */
  predicate Before(n1: string, k1: Id, n2: string, k2: Id)
  {
    if n1 == n2 then k1 <= k2 else StrLe(n1, n2)
  }

  lemma BeforeTotal(n1: string, k1: Id, n2: string, k2: Id)
    ensures Before(n1, k1, n2, k2) || Before(n2, k2, n1, k1)
  {
    StrLeTotal(n1, n2);
  }

  lemma BeforeAntisymmetric(n1: string, k1: Id, n2: string, k2: Id)
    requires Before(n1, k1, n2, k2) && Before(n2, k2, n1, k1)
    ensures k1 == k2
  {
    if n1 != n2 {
      StrLeAntisymmetric(n1, n2);
    }
  }

  lemma BeforeTransitive(n1: string, k1: Id, n2: string, k2: Id, n3: string, k3: Id)
    requires Before(n1, k1, n2, k2) && Before(n2, k2, n3, k3)
    ensures Before(n1, k1, n3, k3)
  {
    if n1 != n3 {
      if n1 == n2 {
      } else if n2 == n3 {
      } else {
        StrLeTransitive(n1, n2, n3);
      }
    } else if n1 != n2 {
      StrLeAntisymmetric(n1, n2);
    }
  }

  /** Key `k` holds a record that the filter `p` selects. */
  ghost predicate Matching<T>(docs: map<Id, T>, p: (Id, T) -> bool, k: Id)
  {
    k in docs && p(k, docs[k])
  }

  /** Key `k` is the first hit of `p` when the hits are sorted by name. */
  ghost predicate IsFirst<T>(docs: map<Id, T>, name: T -> string, p: (Id, T) -> bool, k: Id)
  {
    && Matching(docs, p, k)
    && forall j :: Matching(docs, p, j) ==> Before(name(docs[k]), k, name(docs[j]), j)
  }

  /** The first hit of `p` among the keys `ks`, if any. */
  ghost function Least<T>(docs: map<Id, T>, name: T -> string, p: (Id, T) -> bool, ks: set<Id>): (r: Option<Id>)
    requires ks <= docs.Keys
    ensures r.None? <==> forall j :: j in ks ==> !Matching(docs, p, j)
    ensures r.Some? ==> r.value in ks && Matching(docs, p, r.value)
    ensures r.Some? ==> forall j :: j in ks && Matching(docs, p, j) ==>
      Before(name(docs[r.value]), r.value, name(docs[j]), j)
    decreases ks
  {
    if ks == {} then None
    else
      var x :| x in ks;
      var rest := Least(docs, name, p, ks - {x});
      if !p(x, docs[x]) then rest
      else if rest.None? then Some(x)
      else
        var y := rest.value;
        BeforeTotal(name(docs[x]), x, name(docs[y]), y);
        if Before(name(docs[x]), x, name(docs[y]), y) then
          assert forall j :: j in ks && Matching(docs, p, j) ==>
            Before(name(docs[x]), x, name(docs[j]), j) by {
            forall j | j in ks && Matching(docs, p, j)
              ensures Before(name(docs[x]), x, name(docs[j]), j)
            {
              if j != x {
                BeforeTransitive(name(docs[x]), x, name(docs[y]), y, name(docs[j]), j);
              }
            }
          }
          Some(x)
        else
          rest
  }

  /** The record a name-sorted find with filter `p` returns first. */
  ghost function First<T>(docs: map<Id, T>, name: T -> string, p: (Id, T) -> bool): (r: Option<Id>)
    ensures r.None? <==> forall j :: !Matching(docs, p, j)
    ensures r.Some? ==> IsFirst(docs, name, p, r.value)
  {
    Least(docs, name, p, docs.Keys)
  }

  /** The first hit is unique, so it is what `First` denotes. */
  lemma FirstIsUnique<T>(docs: map<Id, T>, name: T -> string, p: (Id, T) -> bool, k: Id)
    requires IsFirst(docs, name, p, k)
    ensures First(docs, name, p) == Some(k)
  {
    var f := First(docs, name, p).value;
    BeforeAntisymmetric(name(docs[k]), k, name(docs[f]), f);
  }

  /** Runs through the collection keeping the best hit seen so far. */
  method FindFirst<T>(docs: map<Id, T>, name: T -> string, p: (Id, T) -> bool) returns (r: Option<Id>)
    ensures r.None? <==> forall j :: !Matching(docs, p, j)
    ensures r.Some? ==> IsFirst(docs, name, p, r.value)
    ensures r == First(docs, name, p)
  {
    var todo := docs.Keys;
    r := None;
    while todo != {}
      invariant todo <= docs.Keys
      invariant r.None? ==> forall j :: j in docs.Keys - todo ==> !Matching(docs, p, j)
      invariant r.Some? ==> r.value in docs.Keys - todo && Matching(docs, p, r.value)
      invariant r.Some? ==> forall j :: j in docs.Keys - todo && Matching(docs, p, j) ==>
        Before(name(docs[r.value]), r.value, name(docs[j]), j)
      decreases todo
    {
      var k :| k in todo;
      if p(k, docs[k]) {
        if r.None? {
          r := Some(k);
        } else {
          var b := r.value;
          BeforeTotal(name(docs[k]), k, name(docs[b]), b);
          if !Before(name(docs[b]), b, name(docs[k]), k) {
            forall j | j in docs.Keys - todo && Matching(docs, p, j)
              ensures Before(name(docs[k]), k, name(docs[j]), j)
            {
              BeforeTransitive(name(docs[k]), k, name(docs[b]), b, name(docs[j]), j);
            }
            r := Some(k);
          }
        }
      }
      todo := todo - {k};
    }
    if r.Some? {
      FirstIsUnique(docs, name, p, r.value);
    }
  }

  /** The error a service function returns for a lookup that did not
      produce a record: the miss message, or the driver failure. */
  function LookupError<T>(l: Lookup<T>, missing: string): (e: Error)
    requires !l.Found?
    ensures l.NotFound? <==> e == NotFoundError(missing)
    ensures l.Failure? ==> e == StorageFailure
  {
    if l.NotFound? then NotFoundError(missing) else StorageFailure
  }
}
