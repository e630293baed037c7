/** The process-wide payment store: a mutable map from payment id to the
    record, with lookup, insert-or-replace and list-all. */
module Store {
  import opened Types

  /** Lookup on store contents: None exactly when nothing is stored. */
  function Lookup(m: Payments, id: string): (r: Option<Payment>)
    ensures r.None? <==> id !in m
    ensures r.Some? ==> r.value == m[id]
  {
    if id in m then Some(m[id]) else None
  }

  /** Insert-or-replace on store contents. */
  function Upsert(m: Payments, id: string, p: Payment): (m': Payments)
    ensures m'.Keys == m.Keys + {id}
    ensures id in m' && m'[id] == p
    ensures forall k :: k in m && k != id ==> m'[k] == m[k]
  {
    m[id := p]
  }

  /** m' differs from m at most in the entry for id, and loses no entry. */
  ghost predicate OnlyTouches(m: Payments, m': Payments, id: string)
  {
    && m.Keys <= m'.Keys
    && m'.Keys <= m.Keys + {id}
    && forall k :: k in m && k != id ==> m'[k] == m[k]
  }

  /** Upserting one key adds at most that key and keeps every other entry. */
  lemma UpsertOnlyTouches(m: Payments, id: string, p: Payment)
    ensures OnlyTouches(m, Upsert(m, id, p), id)
    ensures |Upsert(m, id, p).Keys| <= |m.Keys| + 1
    ensures id in m ==> Upsert(m, id, p).Keys == m.Keys
  {
    if id in m {
      assert m.Keys + {id} == m.Keys;
    }
  }

  class PaymentStore {
    var payments: Payments

    constructor ()
      ensures payments == map[]
    {
      payments := map[];
    }

    /** The stored record for id, or None when there is none. */
    method GetPayment(id: string) returns (p: Option<Payment>)
      ensures p.None? <==> id !in payments
      ensures p.Some? ==> p.value == payments[id]
    {
      if id in payments {
        p := Some(payments[id]);
      } else {
        p := None;
      }
    }

    /** Stores p under id, replacing any earlier record; nothing else changes. */
    method UpsertPayment(id: string, p: Payment)
      modifies this
      ensures payments == Upsert(old(payments), id, p)
    {
      payments := payments[id := p];
    }

    /** Every stored record, one per key: `order` is the ids in the order
        the records are listed. */
    method GetAllPayments() returns (all: seq<Payment>, ghost order: seq<string>)
      ensures |all| == |order| == |payments|
      ensures forall i :: 0 <= i < |order| ==> order[i] in payments && all[i] == payments[order[i]]
      ensures forall i, j :: 0 <= i < j < |order| ==> order[i] != order[j]
      ensures forall id :: id in payments ==> id in order
      ensures |all| == |payments|
      ensures forall p :: p in all ==> p in payments.Values
      ensures forall id :: id in payments ==> payments[id] in all
    {
      all, order := [], [];
      var rest := payments.Keys;
      while rest != {}
        invariant rest <= payments.Keys
        invariant |all| == |order| && |order| + |rest| == |payments|
        invariant forall i :: 0 <= i < |order| ==> order[i] in payments && order[i] !in rest && all[i] == payments[order[i]]
        invariant forall i, j :: 0 <= i < j < |order| ==> order[i] != order[j]
        invariant forall id :: id in payments ==> id in rest || id in order
        decreases rest
      {
        var id :| id in rest;
        all, order := all + [payments[id]], order + [id];
        rest := rest - {id};
      }
      forall i | 0 <= i < |all|
        ensures all[i] in payments.Values
      {
        assert order[i] in payments && payments[order[i]] == all[i];
      }
      forall id | id in payments
        ensures payments[id] in all
      {
        var i :| 0 <= i < |order| && order[i] == id;
        assert all[i] == payments[id];
      }
    }
  }
}
