/**
 * JSON values as the Python backend holds them after `json.load`, and the
 * dictionary operations the routes apply to records (`dict.get`, the
 * `id` comparisons and the `str(len + 1)` id scheme).
 */
module Json {
  import opened Wrappers
  import opened Strings
  import opened Seqs

  datatype Value =
    | Null
    | Bool(b: bool)
    | Num(n: int)
    | Str(s: string)
    | Arr(items: seq<Value>)
    | Obj(fields: map<string, Value>)

  /** A JSON object: a task, a day-tracker entry, a timer session, a countdown event. */
  type Record = map<string, Value>

  /** Python truthiness of a JSON value (`if value:`). */
  predicate Truthy(v: Value) {
    match v
    case Null => false
    case Bool(b) => b
    case Num(n) => n != 0
    case Str(s) => s != ""
    case Arr(a) => a != []
    case Obj(m) => m != map[]
  }

  /** `record.get(key)`. */
  function Get(r: Record, key: string): Option<Value> {
    if key in r then Some(r[key]) else None
  }

  /** `record.get(key, default)`. */
  function GetOr(r: Record, key: string, default: Value): Value {
    if key in r then r[key] else default
  }

  /** The text of a field the source uses as a string; a missing or non-string field reads as "". */
  function StrField(r: Record, key: string): string {
    if key in r && r[key].Str? then r[key].s else ""
  }

  /** The record's `id` equals `id` (`record['id'] == id`). */
  predicate HasId(r: Record, id: string) {
    "id" in r && r["id"] == Str(id)
  }

  /** The id a log assigns to its next record: `str(len(records) + 1)`. */
  function NextId(rs: seq<Record>): string {
    NatToString(|rs| + 1)
  }

  /** The position of the first record with that id. */
  function IndexOfId(rs: seq<Record>, id: string): (r: Option<nat>)
    ensures r.Some? ==> r.value < |rs| && HasId(rs[r.value], id)
    ensures r.Some? ==> forall j :: 0 <= j < r.value ==> !HasId(rs[j], id)
    ensures r.None? <==> forall j :: 0 <= j < |rs| ==> !HasId(rs[j], id)
  {
    FirstIndex(rs, x => HasId(x, id))
  }

  /**
   * `[x for x in rs if x['id'] != id]`: the records without that id, in
   * their original order, each as often as before.
   */
  function WithoutId(rs: seq<Record>, id: string): (r: seq<Record>)
    ensures forall i :: 0 <= i < |r| ==> !HasId(r[i], id)
    ensures IsSubseq(r, rs)
    ensures forall x :: !HasId(x, id) ==> multiset(r)[x] == multiset(rs)[x]
  {
    var p := x => !HasId(x, id);
    FilterIsSubseq(rs, p);
    forall i | 0 <= i < |Filter(rs, p)| ensures !HasId(Filter(rs, p)[i], id) {
      assert Filter(rs, p)[i] in Filter(rs, p);
    }
    forall x | !HasId(x, id) ensures multiset(Filter(rs, p))[x] == multiset(rs)[x] {
      FilterMultiset(rs, p, x);
    }
    Filter(rs, p)
  }

  /** Deleting an id that no record has changes nothing. */
  lemma WithoutAbsentId(rs: seq<Record>, id: string)
    requires forall i :: 0 <= i < |rs| ==> !HasId(rs[i], id)
    ensures WithoutId(rs, id) == rs
  {
    FilterAll(rs, x => !HasId(x, id));
  }

  /** Deleting an id that exactly one record has removes just that record. */
  lemma WithoutUniqueId(rs: seq<Record>, id: string, k: nat)
    requires k < |rs| && HasId(rs[k], id)
    requires forall i :: 0 <= i < |rs| && i != k ==> !HasId(rs[i], id)
    ensures WithoutId(rs, id) == rs[..k] + rs[k + 1..]
  {
    FilterDropOne(rs, x => !HasId(x, id), k);
  }

  /** The ids a log hands out when only appended to: record `i` has id `str(i + 1)`. */
  predicate SequentialIds(es: seq<Record>) {
    forall i :: 0 <= i < |es| ==> HasId(es[i], NatToString(i + 1))
  }

  /** In such a log no two records share an id. */
  lemma SequentialIdsUnique(es: seq<Record>, i: nat, j: nat)
    requires SequentialIds(es)
    requires i < |es| && j < |es| && i != j
    ensures !HasId(es[j], NatToString(i + 1))
  {
    NatToStringInjective(i + 1, j + 1);
  }

  /** The record a create route appends: the body with id `str(len + 1)` and its creation time. */
  function Created(entry: Record, es: seq<Record>, now: string): (r: Record)
    ensures HasId(r, NextId(es))
    ensures "createdAt" in r && r["createdAt"] == Str(now)
    ensures r.Keys == entry.Keys + {"id", "createdAt"}
    ensures forall k :: k in entry && k != "id" && k != "createdAt" ==> r[k] == entry[k]
  {
    entry["id" := Str(NextId(es))]["createdAt" := Str(now)]
  }

  /** Appending such a record keeps the ids sequential. */
  lemma CreateKeepsSequential(es: seq<Record>, entry: Record, now: string)
    requires SequentialIds(es)
    ensures SequentialIds(es + [Created(entry, es, now)])
  {
    var r := es + [Created(entry, es, now)];
    forall i | 0 <= i < |r| ensures HasId(r[i], NatToString(i + 1)) {
      if i < |es| {
        assert r[i] == es[i];
      }
    }
  }

  /**
   * Ids are `len + 1`, so after deleting any record but the last one the next
   * create hands out an id that a surviving record already has.
   */
  lemma IdReuseAfterDelete(es: seq<Record>, k: nat)
    requires SequentialIds(es)
    requires k + 1 < |es|
    ensures var rest := WithoutId(es, NatToString(k + 1));
      |rest| == |es| - 1 && HasId(rest[|rest| - 1], NextId(rest))
  {
    OnlyOneHasId(es, k);
    var last := |es| - 1;
    assert HasId(es[last], NatToString(last + 1));
    DeleteOnlyHolder(es, NatToString(k + 1), k);
  }

  /** In a sequential log only record `k` has id `str(k + 1)`. */
  lemma OnlyOneHasId(es: seq<Record>, k: nat)
    requires SequentialIds(es) && k < |es|
    ensures HasId(es[k], NatToString(k + 1))
    ensures forall i :: 0 <= i < |es| && i != k ==> !HasId(es[i], NatToString(k + 1))
  {
    forall i | 0 <= i < |es| && i != k ensures !HasId(es[i], NatToString(k + 1)) {
      SequentialIdsUnique(es, k, i);
    }
  }

  /** Deleting the only holder of an id, when it is not the last record, keeps the last record last. */
  lemma DeleteOnlyHolder(es: seq<Record>, id: string, k: nat)
    requires k + 1 < |es| && HasId(es[k], id)
    requires forall i :: 0 <= i < |es| && i != k ==> !HasId(es[i], id)
    requires HasId(es[|es| - 1], NatToString(|es|))
    ensures var rest := WithoutId(es, id);
      |rest| == |es| - 1 && HasId(rest[|rest| - 1], NextId(rest))
  {
    WithoutUniqueId(es, id, k);
    var rest := es[..k] + es[k + 1..];
    assert rest[|rest| - 1] == es[|es| - 1];
  }
}
