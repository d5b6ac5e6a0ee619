/**
 * The older store under the same key: no validation on read, an upsert by
 * id on save, a filter on delete. The records are whatever `JSON.parse`
 * returned, so the model keeps them as JSON values.
 *
 * Reading `p.id` of a `null` element, or calling `findIndex`/`filter` on a
 * parsed value that is not an array, throws a `TypeError`; the model makes
 * that an error result that leaves the store unchanged.
 */
module LegacyStorage {
  import opened Wrappers
  import opened JsonValues
  import opened Lists

  datatype Failure = TypeError

  /** `getPrompts`: the parsed value as it is, or an empty array when missing, empty or unparseable. */
  function Value(blob: Blob): (v: Json)
    ensures !blob.Parsed? ==> v == JArr([])
  {
    if blob.Parsed? then blob.value else JArr([])
  }

  /** `p.id === id` for a parsed element other than `null`. */
  predicate HasId(p: Json, id: string)
  {
    Prop(p, "id") == Some(JStr(id))
  }

  /**
   * `prompts.findIndex(p => p.id === id)`: the first index whose element has
   * the id, or -1; a `null` met before that index throws.
   */
  function FindIndexById(items: seq<Json>, id: string): (r: Result<int, Failure>)
    ensures r.Ok? ==> -1 <= r.value < |items|
    ensures r.Ok? ==> forall k :: 0 <= k < |items| && (r.value == -1 || k < r.value) ==> items[k] != JNull && !HasId(items[k], id)
    ensures r.Ok? && r.value >= 0 ==> HasId(items[r.value], id)
    ensures r.Err? ==> exists k :: 0 <= k < |items| && items[k] == JNull && forall j :: 0 <= j < k ==> !HasId(items[j], id)
  {
    if items == [] then Ok(-1)
    else if items[0] == JNull then Err(TypeError)
    else if HasId(items[0], id) then Ok(0)
    else
      match FindIndexById(items[1..], id)
      case Err(e) => Err(e)
      case Ok(j) => if j == -1 then Ok(-1) else Ok(j + 1)
  }

  /** The filter of `deletePrompt`; never applied to `null`. */
  function KeepsOtherId(id: string): Json -> bool
  {
    (p: Json) => !HasId(p, id)
  }

  class LegacyStore {
    var blob: Blob

    constructor(initial: Blob)
      ensures blob == initial
    {
      blob := initial;
    }

    /** `getPrompts`. */
    method GetPrompts() returns (v: Json)
      ensures v == Value(blob)
    {
      if blob.Parsed? {
        v := blob.value;
      } else {
        v := JArr([]);
      }
    }

    /**
     * `savePrompt`: replaces the first element with the prompt's id, or
     * appends the prompt when none has it, and writes the array back.
     */
    method SavePrompt(prompt: Json, id: string) returns (r: Result<(), Failure>)
      requires IsObject(prompt) && HasId(prompt, id)
      modifies this
      ensures !Value(old(blob)).JArr? ==> r == Err(TypeError) && blob == old(blob)
      ensures Value(old(blob)).JArr? ==>
        var items := Value(old(blob)).items;
        match FindIndexById(items, id)
        case Err(_) => r == Err(TypeError) && blob == old(blob)
        case Ok(_) => r == Ok(()) && blob == Parsed(JArr(Upserted(items, prompt, id)))
    {
      var prompts := GetPrompts();
      if !prompts.JArr? {
        return Err(TypeError);
      }
      var items := prompts.items;
      var index := FindIndexById(items, id);
      if index.Err? {
        return Err(TypeError);
      }
      if index.value >= 0 {
        items := items[index.value := prompt];
      } else {
        items := items + [prompt];
      }
      blob := Parsed(JArr(items));
      r := Ok(());
    }

    /** `deletePrompt`: writes back the elements without the id, whether or not one had it. */
    method DeletePrompt(id: string) returns (r: Result<(), Failure>)
      modifies this
      ensures var v := Value(old(blob));
        !v.JArr? || JNull in v.items ==> r == Err(TypeError) && blob == old(blob)
      ensures var v := Value(old(blob));
        v.JArr? && JNull !in v.items ==> r == Ok(()) && blob == Parsed(JArr(Filter(v.items, KeepsOtherId(id))))
    {
      var prompts := GetPrompts();
      if !prompts.JArr? || JNull in prompts.items {
        return Err(TypeError);
      }
      blob := Parsed(JArr(Filter(prompts.items, KeepsOtherId(id))));
      r := Ok(());
    }

    /** `clearAllPrompts`: removes the item. */
    method ClearAllPrompts()
      modifies this
      ensures blob == Absent
    {
      blob := Absent;
    }
  }

  /** The array a successful save writes: the prompt in place of the first holder of its id, or appended. */
  function Upserted(items: seq<Json>, prompt: Json, id: string): seq<Json>
    requires FindIndexById(items, id).Ok?
  {
    var i := FindIndexById(items, id).value;
    if i >= 0 then items[i := prompt] else items + [prompt]
  }

  /**
   * After a save, looking the id up finds the saved prompt; the length grows
   * by one exactly when the id was new; every other element keeps its place.
   */
  lemma LookupAfterSave(items: seq<Json>, prompt: Json, id: string)
    requires IsObject(prompt) && HasId(prompt, id)
    requires FindIndexById(items, id).Ok?
    ensures var after := Upserted(items, prompt, id); var i := FindIndexById(items, id).value;
      && (i >= 0 ==> |after| == |items| && FindIndexById(after, id) == Ok(i) && after[i] == prompt)
      && (i == -1 ==> |after| == |items| + 1 && FindIndexById(after, id) == Ok(|items|) && after[|items|] == prompt)
      && forall k :: 0 <= k < |items| && k != i ==> after[k] == items[k]
  {
    var after := Upserted(items, prompt, id);
    var i := FindIndexById(items, id).value;
    var j := if i >= 0 then i else |items|;
    FindIndexAt(after, id, j);
  }

  /** An element with the id preceded only by non-null elements without it is what `findIndex` finds. */
  lemma {:induction false} FindIndexAt(items: seq<Json>, id: string, j: nat)
    requires j < |items| && HasId(items[j], id)
    requires forall k :: 0 <= k < j ==> items[k] != JNull && !HasId(items[k], id)
    ensures FindIndexById(items, id) == Ok(j)
  {
    if j > 0 {
      FindIndexAt(items[1..], id, j - 1);
    }
  }

  /**
   * Deleting keeps exactly the elements without the id, in their order, and
   * leaves none with it.
   */
  lemma DeleteKeepsOthers(items: seq<Json>, id: string)
    requires JNull !in items
    ensures var after := Filter(items, KeepsOtherId(id));
      && (forall p :: p in after <==> p in items && !HasId(p, id))
      && IsSubseq(after, items)
      && FindIndexById(after, id) == Ok(-1)
  {
    var after := Filter(items, KeepsOtherId(id));
    FilterMembers(items, KeepsOtherId(id));
    FilterIsSubseq(items, KeepsOtherId(id));
    NotFound(after, id);
  }

  /** With no `null` and no element holding the id, `findIndex` yields -1. */
  lemma {:induction false} NotFound(items: seq<Json>, id: string)
    requires forall p :: p in items ==> p != JNull && !HasId(p, id)
    ensures FindIndexById(items, id) == Ok(-1)
  {
    if items != [] {
      assert items[0] in items;
      assert forall p :: p in items[1..] ==> p in items;
      NotFound(items[1..], id);
    }
  }

  /** Deleting an id nobody has rewrites the same array. */
  lemma DeleteAbsentId(items: seq<Json>, id: string)
    requires forall k :: 0 <= k < |items| ==> !HasId(items[k], id)
    ensures Filter(items, KeepsOtherId(id)) == items
  {
    FilterKeepsAll(items, KeepsOtherId(id));
  }
}
