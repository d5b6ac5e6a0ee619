/**
 * The prompt repository: one JSON array stored under the key `prompts`,
 * read and sanitised on every operation and written back whole.
 *
 * The clock (`now`, an ISO-8601 string), the UUID generator (`freshId`) and
 * date parsing (`millis`, milliseconds since the epoch of an ISO string) are
 * parameters.
 */
module PromptStorage {
  import opened Wrappers
  import opened JsonValues
  import opened PromptTypes
  import opened Errors
  import opened Text
  import opened Lists
  import opened Sorting

  /** The storage key. */
  const StorageKey := "prompts"

  /** The well-formed prompts among `items`, in order: the specification of the load loop. */
  function SanitizeAll(items: seq<Json>, now: string): (r: seq<Prompt>)
    ensures |r| <= |items|
    ensures forall k :: 0 <= k < |r| ==> WellFormed(r[k])
  {
    if items == [] then []
    else
      var init := SanitizeAll(items[..|items| - 1], now);
      match SanitizePrompt(items[|items| - 1], now)
      case Some(p) => init + [p]
      case None => init
  }

  /**
   * What `loadPromptsFromStorage` yields for a stored blob: nothing for a
   * missing, empty or unparseable item or for a value that is not an array;
   * otherwise the elements the sanitiser accepts, in stored order.
   */
  function Loaded(blob: Blob, now: string): seq<Prompt>
  {
    if blob.Parsed? && blob.value.JArr? then SanitizeAll(blob.value.items, now) else []
  }

  /** `JSON.stringify(prompts)` under the key, as `JSON.parse` reads it back. */
  function Stored(prompts: seq<Prompt>): Blob
  {
    Parsed(JArr(seq(|prompts|, i requires 0 <= i < |prompts| => ToJson(prompts[i]))))
  }

  predicate AllWellFormed(prompts: seq<Prompt>)
  {
    forall k :: 0 <= k < |prompts| ==> WellFormed(prompts[k])
  }

  /** Sort key of `listPrompts`: `updatedAt`, newest first. */
  function UpdatedKey(millis: string -> int): Prompt -> Key
  {
    (p: Prompt) => Key(millis(p.updatedAt), 0)
  }

  /** `listPrompts`: the loaded prompts, newest update first, ties in stored order. */
  function Listing(blob: Blob, now: string, millis: string -> int): seq<Prompt>
  {
    SortDesc(Loaded(blob, now), UpdatedKey(millis))
  }

  /** `findIndex(p => p.id === id)`: the first index holding `id`, or -1. */
  function IndexOfId(prompts: seq<Prompt>, id: string): (i: int)
    ensures -1 <= i < |prompts|
    ensures i == -1 <==> forall k :: 0 <= k < |prompts| ==> prompts[k].id != id
    ensures 0 <= i ==> prompts[i].id == id && forall k :: 0 <= k < i ==> prompts[k].id != id
  {
    if prompts == [] then -1
    else if prompts[0].id == id then 0
    else
      var j := IndexOfId(prompts[1..], id);
      if j == -1 then -1 else j + 1
  }

  /** `find(p => p.id === id)`. */
  function FindById(prompts: seq<Prompt>, id: string): (r: Option<Prompt>)
    ensures r.None? <==> forall k :: 0 <= k < |prompts| ==> prompts[k].id != id
    ensures r.Some? ==> r.value.id == id && r.value in prompts
    ensures r.Some? ==>
      exists i :: 0 <= i < |prompts| && prompts[i] == r.value && (forall k :: 0 <= k < i ==> prompts[k].id != id)
  {
    var i := IndexOfId(prompts, id);
    if i == -1 then None else Some(prompts[i])
  }

  /** The message thrown when no stored prompt has the id. */
  function NotFoundMessage(id: string): string
  {
    "Prompt with id \"" + id + "\" not found"
  }

  /** The prompt `createPrompt` builds from valid input. */
  function NewPrompt(input: CreatePromptInput, now: string, freshId: string): (p: Prompt)
    ensures p.id == freshId && p.createdAt == now && p.updatedAt == now && p.lastUsedAt.None?
    ensures IsTrimmed(p.title) && IsTrimmed(p.body)
    ensures WellFormed(p)
    ensures p.title == Trim(input.title) && p.body == Trim(input.body)
    ensures input.tags.Some? && input.tags.value != [] ==> p.tags == input.tags
    ensures input.tags.None? || input.tags.value == [] ==> p.tags.None?
  {
    TrimSpec(input.title);
    TrimSpec(input.body);
    Prompt(
      freshId,
      Trim(input.title),
      Trim(input.body),
      if input.tags.Some? && |input.tags.value| > 0 then input.tags else None,
      now,
      now,
      None)
  }

  /**
   * The record `updatePrompt` builds: fields the patch leaves undefined keep
   * their value, a given title or body is trimmed, given tags replace the old
   * ones (an empty list removes them), and `updatedAt` becomes `now`.
   */
  function Patched(existing: Prompt, patch: UpdatePromptInput, now: string): (u: Prompt)
    ensures u.id == existing.id && u.createdAt == existing.createdAt && u.lastUsedAt == existing.lastUsedAt
    ensures u.updatedAt == now
    ensures patch.title.None? ==> u.title == existing.title
    ensures patch.title.Some? ==> IsTrimmed(u.title) && (u.title == [] <==> AllWs(patch.title.value))
    ensures patch.body.None? ==> u.body == existing.body
    ensures patch.body.Some? ==> IsTrimmed(u.body) && (u.body == [] <==> AllWs(patch.body.value))
    ensures patch.title.Some? ==> u.title == Trim(patch.title.value)
    ensures patch.body.Some? ==> u.body == Trim(patch.body.value)
    ensures patch.tags.None? ==> u.tags == existing.tags
    ensures patch.tags.Some? && patch.tags.value != [] ==> u.tags == patch.tags
    ensures patch.tags == Some([]) ==> u.tags.None?
    ensures WellFormed(existing) ==> WellFormed(u)
  {
    var tags := if patch.tags.Some? then (if |patch.tags.value| > 0 then patch.tags else None) else existing.tags;
    Prompt(
      existing.id,
      PatchedText(existing.title, patch.title),
      PatchedText(existing.body, patch.body),
      tags,
      existing.createdAt,
      now,
      existing.lastUsedAt)
  }

  /** `patch.x !== undefined ? patch.x.trim() : existing.x`. */
  function PatchedText(existing: string, given: Option<string>): (r: string)
    ensures given.None? ==> r == existing
    ensures given.Some? ==> r == Trim(given.value) && IsTrimmed(r) && (r == [] <==> AllWs(given.value))
  {
    match given
    case None => existing
    case Some(t) =>
      TrimSpec(t);
      TrimEmpty(t);
      Trim(t)
  }

  /** The filter of `deletePrompt`. */
  function IdIsNot(id: string): Prompt -> bool
  {
    (p: Prompt) => p.id != id
  }

  /** `p.tags?.some(t => t.toLowerCase() === lowerTag)`. */
  predicate HasTag(p: Prompt, lowerTag: string)
  {
    p.tags.Some? && exists t :: t in p.tags.value && Lower(t) == lowerTag
  }

  /** The match of `searchPrompts`: the lower-cased query inside the title, the body or a tag. */
  predicate MatchesQuery(p: Prompt, lowerQuery: string)
  {
    || Contains(Lower(p.title), lowerQuery)
    || Contains(Lower(p.body), lowerQuery)
    || (p.tags.Some? && exists t :: t in p.tags.value && Contains(Lower(t), lowerQuery))
  }

  function TagFilter(lowerTag: string): Prompt -> bool
  {
    (p: Prompt) => HasTag(p, lowerTag)
  }

  function QueryFilter(lowerQuery: string): Prompt -> bool
  {
    (p: Prompt) => MatchesQuery(p, lowerQuery)
  }

  /** The local store, reduced to the one key this repository uses. */
  class PromptStore {
    var blob: Blob

    /** A store already holding `initial` under the key. */
    constructor(initial: Blob)
      ensures blob == initial
    {
      blob := initial;
    }

    /** `loadPromptsFromStorage`: parse, keep arrays only, sanitise each element. */
    method LoadPromptsFromStorage(now: string) returns (prompts: seq<Prompt>)
      ensures prompts == Loaded(blob, now)
    {
      prompts := [];
      if blob.Parsed? && blob.value.JArr? {
        var items := blob.value.items;
        var i := 0;
        while i < |items|
          invariant 0 <= i <= |items|
          invariant prompts == SanitizeAll(items[..i], now)
        {
          assert items[..i + 1][..i] == items[..i];
          var sanitized := SanitizePrompt(items[i], now);
          if sanitized.Some? {
            prompts := prompts + [sanitized.value];
          }
          i := i + 1;
        }
        assert items[..|items|] == items;
      }
    }

    /** `savePromptsToStorage`: the whole array replaces the stored item. */
    method SavePromptsToStorage(prompts: seq<Prompt>)
      modifies this
      ensures blob == Stored(prompts)
    {
      blob := Stored(prompts);
    }

    /** `listPrompts`. */
    method ListPrompts(now: string, millis: string -> int) returns (r: seq<Prompt>)
      ensures r == Listing(blob, now, millis)
      ensures SortedDesc(r, UpdatedKey(millis))
      ensures multiset(r) == multiset(Loaded(blob, now))
    {
      var prompts := LoadPromptsFromStorage(now);
      r := SortDesc(prompts, UpdatedKey(millis));
      SortDescSpec(prompts, UpdatedKey(millis));
    }

    /** `getPrompt`: the first loaded prompt with the id, if any. */
    method GetPrompt(id: string, now: string) returns (r: Option<Prompt>)
      ensures r == FindById(Loaded(blob, now), id)
      ensures r.None? <==> forall k :: 0 <= k < |Loaded(blob, now)| ==> Loaded(blob, now)[k].id != id
    {
      var prompts := LoadPromptsFromStorage(now);
      r := FindById(prompts, id);
    }

    /**
     * `createPrompt`: rejects a blank title, then a blank body, leaving the
     * store as it was; otherwise appends the new prompt to the loaded ones
     * and writes them all back.
     */
    method CreatePrompt(input: CreatePromptInput, now: string, freshId: string) returns (r: Result<Prompt, Thrown>)
      modifies this
      ensures AllWs(input.title) ==> r == Err(PlainError("Title is required")) && blob == old(blob)
      ensures !AllWs(input.title) && AllWs(input.body) ==> r == Err(PlainError("Body is required")) && blob == old(blob)
      ensures !AllWs(input.title) && !AllWs(input.body) ==>
        r == Ok(NewPrompt(input, now, freshId)) && blob == Stored(old(Loaded(blob, now)) + [r.value])
    {
      TrimEmpty(input.title);
      TrimEmpty(input.body);
      if Trim(input.title) == [] {
        return Err(PlainError("Title is required"));
      }
      if Trim(input.body) == [] {
        return Err(PlainError("Body is required"));
      }
      var p := NewPrompt(input, now, freshId);
      var prompts := LoadPromptsFromStorage(now);
      prompts := prompts + [p];
      SavePromptsToStorage(prompts);
      r := Ok(p);
    }

    /**
     * `updatePrompt`: fails when no loaded prompt has the id; otherwise
     * patches the first one and fails when its title or body ends up empty;
     * otherwise writes the loaded prompts back with that one replaced.
     */
    method UpdatePrompt(id: string, patch: UpdatePromptInput, now: string) returns (r: Result<Prompt, Thrown>)
      modifies this
      ensures var ps := old(Loaded(blob, now));
        IndexOfId(ps, id) == -1 ==> r == Err(PlainError(NotFoundMessage(id))) && blob == old(blob)
      ensures var ps := old(Loaded(blob, now)); var i := IndexOfId(ps, id);
        0 <= i ==>
          var u := Patched(ps[i], patch, now);
          && (u.title == [] ==> r == Err(PlainError("Title cannot be empty")) && blob == old(blob))
          && (u.title != [] && u.body == [] ==> r == Err(PlainError("Body cannot be empty")) && blob == old(blob))
          && (u.title != [] && u.body != [] ==> r == Ok(u) && blob == Stored(ps[i := u]))
    {
      var prompts := LoadPromptsFromStorage(now);
      var index := IndexOfId(prompts, id);
      if index == -1 {
        return Err(PlainError(NotFoundMessage(id)));
      }
      var updated := Patched(prompts[index], patch, now);
      if updated.title == [] {
        return Err(PlainError("Title cannot be empty"));
      }
      if updated.body == [] {
        return Err(PlainError("Body cannot be empty"));
      }
      prompts := prompts[index := updated];
      SavePromptsToStorage(prompts);
      r := Ok(updated);
    }

    /**
     * `deletePrompt`: fails, leaving the store as it was, when no loaded
     * prompt has the id; otherwise writes back the loaded prompts without
     * every prompt carrying it.
     */
    method DeletePrompt(id: string, now: string) returns (r: Result<(), Thrown>)
      modifies this
      ensures var ps := old(Loaded(blob, now));
        (forall k :: 0 <= k < |ps| ==> ps[k].id != id) ==> r == Err(PlainError(NotFoundMessage(id))) && blob == old(blob)
      ensures var ps := old(Loaded(blob, now));
        (exists k :: 0 <= k < |ps| && ps[k].id == id) ==> r == Ok(()) && blob == Stored(Filter(ps, IdIsNot(id)))
    {
      var prompts := LoadPromptsFromStorage(now);
      var filtered := Filter(prompts, IdIsNot(id));
      FilterLength(prompts, IdIsNot(id));
      if |filtered| == |prompts| {
        return Err(PlainError(NotFoundMessage(id)));
      }
      SavePromptsToStorage(filtered);
      r := Ok(());
    }

    /** `clearAllPrompts`: removes the item. */
    method ClearAllPrompts()
      modifies this
      ensures blob == Absent
    {
      blob := Absent;
    }

    /** `countPrompts`. */
    method CountPrompts(now: string) returns (n: nat)
      ensures n == |Loaded(blob, now)|
    {
      var prompts := LoadPromptsFromStorage(now);
      n := |prompts|;
    }

    /** `findPromptsByTag`: the listed prompts carrying the tag, compared case-insensitively, in listing order. */
    method FindPromptsByTag(tag: string, now: string, millis: string -> int) returns (r: seq<Prompt>)
      ensures r == Filter(Listing(blob, now, millis), TagFilter(Lower(tag)))
      ensures forall p :: p in r <==> p in Loaded(blob, now) && HasTag(p, Lower(tag))
      ensures IsSubseq(r, Listing(blob, now, millis))
    {
      var prompts := ListPrompts(now, millis);
      r := Filter(prompts, TagFilter(Lower(tag)));
      FilterMembersPerm(prompts, Loaded(blob, now), TagFilter(Lower(tag)));
      FilterIsSubseq(prompts, TagFilter(Lower(tag)));
    }

    /** `searchPrompts`: the listed prompts whose title, body or a tag contains the query, ignoring case. */
    method SearchPrompts(query: string, now: string, millis: string -> int) returns (r: seq<Prompt>)
      ensures r == Filter(Listing(blob, now, millis), QueryFilter(Lower(query)))
      ensures forall p :: p in r <==> p in Loaded(blob, now) && MatchesQuery(p, Lower(query))
      ensures IsSubseq(r, Listing(blob, now, millis))
    {
      var prompts := ListPrompts(now, millis);
      r := Filter(prompts, QueryFilter(Lower(query)));
      FilterMembersPerm(prompts, Loaded(blob, now), QueryFilter(Lower(query)));
      FilterIsSubseq(prompts, QueryFilter(Lower(query)));
    }
  }

  /** Loading what was saved gives the same prompts back, in the same order. */
  lemma {:induction false} SanitizeAllStored(prompts: seq<Prompt>, now: string)
    requires AllWellFormed(prompts)
    ensures Loaded(Stored(prompts), now) == prompts
  {
    if prompts != [] {
      var init := prompts[..|prompts| - 1];
      var last := prompts[|prompts| - 1];
      assert prompts == init + [last];
      assert WellFormed(last);
      SanitizeAllStored(init, now);
      StoredSnoc(init, last);
      SanitizeRoundTrip(last, now);
      SanitizeAllSnoc(Stored(init).value.items, ToJson(last), now);
    }
  }

  lemma StoredSnoc(init: seq<Prompt>, last: Prompt)
    ensures Stored(init + [last]).value.items == Stored(init).value.items + [ToJson(last)]
  {
  }

  lemma SanitizeAllSnoc(items: seq<Json>, x: Json, now: string)
    ensures SanitizeAll(items + [x], now)
      == SanitizeAll(items, now) + (if SanitizePrompt(x, now).Some? then [SanitizePrompt(x, now).value] else [])
  {
    assert (items + [x])[..|items|] == items;
  }

  /** Writing back what was loaded changes nothing a later load can see, whatever the clock. */
  lemma LoadSaveLoad(blob: Blob, now: string, later: string)
    ensures Loaded(Stored(Loaded(blob, now)), later) == Loaded(blob, now)
  {
    SanitizeAllStored(Loaded(blob, now), later);
  }

  /** Every loaded prompt came from an element the sanitiser accepted. */
  lemma {:induction false} SanitizeAllSources(items: seq<Json>, now: string)
    ensures forall p :: p in SanitizeAll(items, now) ==> exists x :: x in items && SanitizePrompt(x, now) == Some(p)
  {
    if items != [] {
      var init := items[..|items| - 1];
      SanitizeAllSources(init, now);
      forall p | p in SanitizeAll(items, now)
        ensures exists x :: x in items && SanitizePrompt(x, now) == Some(p)
      {
        if p in SanitizeAll(init, now) {
          var x :| x in init && SanitizePrompt(x, now) == Some(p);
          assert x in items;
        } else {
          assert SanitizePrompt(items[|items| - 1], now) == Some(p);
        }
      }
    }
  }

  /**
   * After a successful create the new prompt is found by its id, provided
   * the generated id was not already in use, and the count grows by one.
   */
  lemma GetAfterCreate(before: seq<Prompt>, p: Prompt, now: string)
    requires AllWellFormed(before) && WellFormed(p)
    requires forall k :: 0 <= k < |before| ==> before[k].id != p.id
    ensures FindById(Loaded(Stored(before + [p]), now), p.id) == Some(p)
    ensures |Loaded(Stored(before + [p]), now)| == |before| + 1
  {
    SanitizeAllStored(before + [p], now);
    assert IndexOfId(before + [p], p.id) == |before|;
  }

  /**
   * After a successful update, looking up the id yields the patched record,
   * and every other position is as it was loaded.
   */
  lemma GetAfterUpdate(before: seq<Prompt>, id: string, patch: UpdatePromptInput, now: string, later: string)
    requires AllWellFormed(before)
    requires IndexOfId(before, id) >= 0
    ensures var i := IndexOfId(before, id); var u := Patched(before[i], patch, now);
      && FindById(Loaded(Stored(before[i := u]), later), id) == Some(u)
      && |Loaded(Stored(before[i := u]), later)| == |before|
      && forall k :: 0 <= k < |before| && k != i ==> Loaded(Stored(before[i := u]), later)[k] == before[k]
  {
    var i := IndexOfId(before, id);
    var u := Patched(before[i], patch, now);
    var after := before[i := u];
    UpdateKeepsWellFormed(before, i, u);
    SanitizeAllStored(after, later);
    IndexOfIdAfterUpdate(before, id, u);
  }

  lemma UpdateKeepsWellFormed(before: seq<Prompt>, i: nat, u: Prompt)
    requires AllWellFormed(before) && i < |before| && WellFormed(u)
    ensures AllWellFormed(before[i := u])
  {
    var after := before[i := u];
    forall k | 0 <= k < |after| ensures WellFormed(after[k]) {
      if k != i {
        assert after[k] == before[k];
      }
    }
  }

  /** Replacing the first prompt with an id by one with the same id leaves it first. */
  lemma IndexOfIdAfterUpdate(before: seq<Prompt>, id: string, u: Prompt)
    requires IndexOfId(before, id) >= 0 && u.id == id
    ensures IndexOfId(before[IndexOfId(before, id) := u], id) == IndexOfId(before, id)
  {
    var i := IndexOfId(before, id);
    var after := before[i := u];
    assert after[i].id == id;
    assert forall k :: 0 <= k < i ==> after[k] == before[k];
  }

  /**
   * After a successful delete no prompt with the id is left, and every other
   * loaded prompt is still there, in its order.
   */
  lemma GoneAfterDelete(before: seq<Prompt>, id: string, later: string)
    requires AllWellFormed(before)
    ensures var after := Loaded(Stored(Filter(before, IdIsNot(id))), later);
      && FindById(after, id).None?
      && (forall p :: p in after <==> p in before && p.id != id)
      && IsSubseq(after, before)
  {
    var filtered := Filter(before, IdIsNot(id));
    FilterMembers(before, IdIsNot(id));
    FilterIsSubseq(before, IdIsNot(id));
    assert AllWellFormed(filtered) by {
      forall k | 0 <= k < |filtered| ensures WellFormed(filtered[k]) {
        assert filtered[k] in before;
      }
    }
    SanitizeAllStored(filtered, later);
  }

  /** An empty query matches every prompt, so searching for it lists everything. */
  lemma SearchEmptyQuery(prompts: seq<Prompt>)
    ensures Filter(prompts, QueryFilter(Lower(""))) == prompts
  {
    forall k | 0 <= k < |prompts| ensures QueryFilter(Lower(""))(prompts[k]) {
      assert OccursAt(Lower(prompts[k].title), [], 0);
    }
    FilterKeepsAll(prompts, QueryFilter(Lower("")));
  }

  /** A prompt without tags is never found by tag. */
  lemma UntaggedNeverFoundByTag(prompts: seq<Prompt>, tag: string)
    requires forall k :: 0 <= k < |prompts| ==> prompts[k].tags.None?
    ensures Filter(prompts, TagFilter(Lower(tag))) == []
  {
    FilterDropsAll(prompts, TagFilter(Lower(tag)));
  }

  /** The listing holds exactly the loaded prompts and preserves the load order among equal update times. */
  lemma ListingStable(blob: Blob, now: string, millis: string -> int, k: Key)
    ensures Filter(Listing(blob, now, millis), HasKey(UpdatedKey(millis), k))
         == Filter(Loaded(blob, now), HasKey(UpdatedKey(millis), k))
  {
    SortDescStable(Loaded(blob, now), UpdatedKey(millis), k);
  }
}
