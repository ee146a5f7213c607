/** The catalog of available models (`ai_models` in settings.ts): a
    process-wide object mapping each model id to itself. A JavaScript
    object remembers the order in which its keys were first added, so the
    catalog is a map together with that insertion order. */
module ModelCatalog {
  import opened JsValues

  datatype Catalog = Catalog(names: map<string, string>, order: seq<string>)

  /** The representation invariant: the order lists every key once and
      nothing else, and every id is its own display name. */
  ghost predicate Valid(c: Catalog) {
    && (forall i, j :: 0 <= i < j < |c.order| ==> c.order[i] != c.order[j])
    && (forall k :: k in c.names <==> k in c.order)
    && (forall k :: k in c.names ==> c.names[k] == k)
  }

  /** The catalog at start-up: `{}`. */
  const Empty: Catalog := Catalog(map[], [])

  /** `ai_models[id] = id`: a new key goes to the end of the order, an
      existing key keeps its place. */
  function Put(c: Catalog, id: string): (r: Catalog)
    requires Valid(c)
    ensures Valid(r)
    ensures r.names == c.names[id := id]
    ensures id in c.names ==> r.order == c.order
    ensures id !in c.names ==> r.order == c.order + [id]
  {
    Catalog(c.names[id := id], if id in c.names then c.order else c.order + [id])
  }

  /** The ids of `ids` not in `known`, each once, in the order of their
      first occurrence: the keys an upsert loop appends after `known`. */
  function NewIds(known: seq<string>, ids: seq<string>): seq<string>
    decreases |ids|
  {
    if |ids| == 0 then []
    else if ids[0] in known then NewIds(known, ids[1..])
    else [ids[0]] + NewIds(known + [ids[0]], ids[1..])
  }

  /** The key order after the loop, followed one id at a time. */
  function OrderAfter(order: seq<string>, ids: seq<string>): seq<string>
    decreases |ids|
  {
    if |ids| == 0 then order
    else OrderAfter(if ids[0] in order then order else order + [ids[0]], ids[1..])
  }

  /** Following the ids one at a time appends exactly the new ones. */
  lemma {:induction false} OrderAfterAppendsNewIds(order: seq<string>, ids: seq<string>)
    ensures OrderAfter(order, ids) == order + NewIds(order, ids)
    decreases |ids|
  {
    if |ids| == 0 {
      assert order + [] == order;
    } else if ids[0] in order {
      OrderAfterAppendsNewIds(order, ids[1..]);
    } else {
      OrderAfterAppendsNewIds(order + [ids[0]], ids[1..]);
      assert order + [ids[0]] + NewIds(order + [ids[0]], ids[1..])
          == order + ([ids[0]] + NewIds(order + [ids[0]], ids[1..]));
    }
  }

  /** The loop `for (let model of data) ai_models[model.id] = model.id`. */
  function PutAll(c: Catalog, ids: seq<string>): (r: Catalog)
    requires Valid(c)
    ensures Valid(r)
    ensures forall k :: k in r.names <==> k in c.names || k in ids
    ensures |c.order| <= |r.order| && r.order[..|c.order|] == c.order
    decreases |ids|
  {
    if |ids| == 0 then c
    else
      var c' := Put(c, ids[0]);
      var r := PutAll(c', ids[1..]);
      assert forall k :: k in ids <==> k == ids[0] || k in ids[1..];
      assert r.order[..|c'.order|] == c'.order;
      assert c'.order[..|c.order|] == c.order;
      r
  }

  /** The catalog's key order after an upsert is the one-at-a-time order. */
  lemma {:induction false} PutAllFollowsOrder(c: Catalog, ids: seq<string>)
    requires Valid(c)
    ensures PutAll(c, ids).order == OrderAfter(c.order, ids)
    decreases |ids|
  {
    if |ids| > 0 {
      var c' := Put(c, ids[0]);
      assert c'.order == if ids[0] in c.order then c.order else c.order + [ids[0]];
      PutAllFollowsOrder(c', ids[1..]);
    }
  }

  /** The keys appended by an upsert are exactly the new ids, each once,
      in the order they first occur; the old keys stay in front. */
  lemma PutAllOrder(c: Catalog, ids: seq<string>)
    requires Valid(c)
    ensures PutAll(c, ids).order == c.order + NewIds(c.order, ids)
  {
    PutAllFollowsOrder(c, ids);
    OrderAfterAppendsNewIds(c.order, ids);
  }

  /** Upserting into the start-up catalog: the keys are the ids, and the
      first key is the first id. */
  lemma PutAllFromEmpty(ids: seq<string>)
    requires |ids| > 0
    ensures var r := PutAll(Empty, ids);
            && (forall k :: k in r.names <==> k in ids)
            && r.order != [] && r.order[0] == ids[0]
  {
    PutAllOrder(Empty, ids);
    assert NewIds([], ids) == [ids[0]] + NewIds([ids[0]], ids[1..]);
  }

  /** `Object.keys(ai_models)[0]`: `undefined` for the empty catalog. */
  function FirstKey(c: Catalog): (r: Option<string>)
    requires Valid(c)
    ensures r.None? <==> c.names == map[]
    ensures r.Some? ==> r.value in c.names && c.order != [] && r.value == c.order[0]
  {
    if |c.order| == 0 then
      assert forall k :: k !in c.names;
      None
    else
      assert c.order[0] in c.names;
      Some(c.order[0])
  }

  /** `ai_models[id]`. */
  function Get(c: Catalog, id: string): (r: Option<string>)
    ensures r.Some? <==> id in c.names
    ensures r.Some? ==> r.value == c.names[id]
  {
    if id in c.names then Some(c.names[id]) else None
  }

  /** Putting ids that are all present already changes nothing. */
  lemma {:induction false} PutAllPresent(c: Catalog, ids: seq<string>)
    requires Valid(c)
    requires forall i :: 0 <= i < |ids| ==> ids[i] in c.names
    ensures PutAll(c, ids) == c
    decreases |ids|
  {
    if |ids| > 0 {
      assert c.names[ids[0] := ids[0]] == c.names;
      assert Put(c, ids[0]) == c;
      PutAllPresent(c, ids[1..]);
    }
  }

  /** Putting `a` and then `b` is putting `a + b`. */
  lemma {:induction false} PutAllAppend(c: Catalog, a: seq<string>, b: seq<string>)
    requires Valid(c)
    ensures PutAll(PutAll(c, a), b) == PutAll(c, a + b)
    decreases |a|
  {
    if |a| > 0 {
      assert (a + b)[0] == a[0];
      assert (a + b)[1..] == a[1..] + b;
      PutAllAppend(Put(c, a[0]), a[1..], b);
    } else {
      assert a + b == b;
    }
  }

  /** Upserting the same ids twice gives the catalog upserting them once. */
  lemma PutAllIdempotent(c: Catalog, ids: seq<string>)
    requires Valid(c)
    ensures PutAll(PutAll(c, ids), ids) == PutAll(c, ids)
  {
    var r := PutAll(c, ids);
    assert forall i :: 0 <= i < |ids| ==> ids[i] in r.names;
    PutAllPresent(r, ids);
  }

  /** Upserting never removes an entry, never reorders the old keys, and
      every id upserted ends up mapped to itself. */
  lemma PutAllKeepsAndAdds(c: Catalog, ids: seq<string>)
    requires Valid(c)
    ensures var r := PutAll(c, ids);
            && c.names.Keys <= r.names.Keys
            && (forall k :: k in c.names ==> r.names[k] == c.names[k])
            && (forall i :: 0 <= i < |ids| ==> ids[i] in r.names && r.names[ids[i]] == ids[i])
            && r.order[..|c.order|] == c.order
  {
  }
}
