/**
 * The prompt-list hook: a local snapshot of the prompts with a loading flag
 * and the last load error, updated after each store call.
 *
 * The awaited store call is given as its outcome: `Ok` with what it
 * returned, or `Err` with what it threw. `updateLastUsed` is not part of this
 * model; only its outcome is.
 */
module UsePrompts {
  import opened Wrappers
  import opened PromptTypes
  import opened Errors
  import opened Lists
  import opened Sorting

  /** `err instanceof Error ? err : new Error(String(err))`. */
  function AsError(err: Thrown): (e: Thrown)
    ensures IsError(e)
    ensures IsError(err) ==> e == err
  {
    if err.NonError? then PlainError(err.text) else err
  }

  /** `prev.map(p => p.id === id ? updated : p)`. */
  function ReplaceById(prev: seq<Prompt>, id: string, updated: Prompt): (r: seq<Prompt>)
    ensures |r| == |prev|
    ensures forall k :: 0 <= k < |prev| ==> r[k] == if prev[k].id == id then updated else prev[k]
  {
    seq(|prev|, k requires 0 <= k < |prev| => if prev[k].id == id then updated else prev[k])
  }

  /** `prev.filter(p => p.id !== id)`. */
  function RemoveById(prev: seq<Prompt>, id: string): seq<Prompt>
  {
    Filter(prev, (p: Prompt) => p.id != id)
  }

  /**
   * The mark-used order: last use, newest first, with a missing (or empty)
   * `lastUsedAt` counted as 0; equal last uses ordered by creation, newest first.
   */
  function UsageKey(millis: string -> int): Prompt -> Key
  {
    (p: Prompt) => Key(if p.lastUsedAt.Some? && p.lastUsedAt.value != [] then millis(p.lastUsedAt.value) else 0,
                       millis(p.createdAt))
  }

  /** The `markAsUsed` updater: replace the used prompt, then re-sort a copy by `UsageKey`. */
  function MarkedUsed(prev: seq<Prompt>, id: string, updated: Prompt, millis: string -> int): seq<Prompt>
  {
    SortDesc(ReplaceById(prev, id, updated), UsageKey(millis))
  }

  class PromptsHook {
    var prompts: seq<Prompt>
    var isLoading: bool
    var error: Option<Thrown>

    /** The initial state: nothing loaded yet, loading. */
    constructor()
      ensures prompts == [] && isLoading && error.None?
    {
      prompts := [];
      isLoading := true;
      error := None;
    }

    /**
     * `loadPrompts`: on success the snapshot becomes the listing and the error
     * is cleared; on failure the snapshot stays and the error is recorded.
     * Loading ends in both cases.
     */
    method LoadPrompts(listed: Result<seq<Prompt>, Thrown>)
      modifies this
      ensures !isLoading
      ensures listed.Ok? ==> prompts == listed.value && error.None?
      ensures listed.Err? ==> prompts == old(prompts) && error == Some(AsError(listed.error))
    {
      isLoading := true;
      error := None;
      if listed.Ok? {
        prompts := listed.value;
      } else {
        error := Some(AsError(listed.error));
      }
      isLoading := false;
    }

    /** `create`: the new prompt goes in front of the snapshot once the store accepted it; a failure is rethrown. */
    method Create(created: Result<Prompt, Thrown>) returns (r: Result<Prompt, Thrown>)
      modifies this
      ensures r == created
      ensures created.Ok? ==> prompts == [created.value] + old(prompts)
      ensures created.Err? ==> prompts == old(prompts)
      ensures isLoading == old(isLoading) && error == old(error)
    {
      if created.Ok? {
        prompts := [created.value] + prompts;
      }
      r := created;
    }

    /** `update`: every snapshot entry with the id becomes the returned record. */
    method Update(id: string, updated: Result<Prompt, Thrown>) returns (r: Result<Prompt, Thrown>)
      modifies this
      ensures r == updated
      ensures updated.Ok? ==> prompts == ReplaceById(old(prompts), id, updated.value)
      ensures updated.Err? ==> prompts == old(prompts)
      ensures isLoading == old(isLoading) && error == old(error)
    {
      if updated.Ok? {
        prompts := ReplaceById(prompts, id, updated.value);
      }
      r := updated;
    }

    /** `remove`: every snapshot entry with the id is dropped once the store deleted it. */
    method Remove(id: string, deleted: Result<(), Thrown>) returns (r: Result<(), Thrown>)
      modifies this
      ensures r == deleted
      ensures deleted.Ok? ==> prompts == RemoveById(old(prompts), id)
      ensures deleted.Err? ==> prompts == old(prompts)
      ensures isLoading == old(isLoading) && error == old(error)
    {
      if deleted.Ok? {
        prompts := RemoveById(prompts, id);
      }
      r := deleted;
    }

    /** `markAsUsed`: replace and re-sort by usage; a failure is rethrown with the snapshot untouched. */
    method MarkAsUsed(id: string, used: Result<Prompt, Thrown>, millis: string -> int) returns (r: Result<(), Thrown>)
      modifies this
      ensures used.Ok? ==> r == Ok(()) && prompts == MarkedUsed(old(prompts), id, used.value, millis)
      ensures used.Err? ==> r == Err(used.error) && prompts == old(prompts)
      ensures isLoading == old(isLoading) && error == old(error)
    {
      if used.Err? {
        return Err(used.error);
      }
      prompts := MarkedUsed(prompts, id, used.value, millis);
      r := Ok(());
    }
  }

  /** Replacing an id nobody has leaves the snapshot as it is. */
  lemma ReplaceByIdAbsent(prev: seq<Prompt>, id: string, updated: Prompt)
    requires forall k :: 0 <= k < |prev| ==> prev[k].id != id
    ensures ReplaceById(prev, id, updated) == prev
  {
  }

  /** Replacing twice with the same record is replacing once, when the record keeps the id. */
  lemma ReplaceByIdIdempotent(prev: seq<Prompt>, id: string, updated: Prompt)
    requires updated.id == id
    ensures ReplaceById(ReplaceById(prev, id, updated), id, updated) == ReplaceById(prev, id, updated)
  {
  }

  /** Removing keeps exactly the entries with other ids, in order. */
  lemma RemoveByIdSpec(prev: seq<Prompt>, id: string)
    ensures forall p :: p in RemoveById(prev, id) <==> p in prev && p.id != id
    ensures IsSubseq(RemoveById(prev, id), prev)
    ensures |RemoveById(prev, id)| == |prev| <==> forall k :: 0 <= k < |prev| ==> prev[k].id != id
  {
    FilterMembers(prev, (p: Prompt) => p.id != id);
    FilterIsSubseq(prev, (p: Prompt) => p.id != id);
    FilterLength(prev, (p: Prompt) => p.id != id);
  }

  /**
   * After marking as used, the snapshot is a reordering of the snapshot
   * with the used prompt replaced, sorted by usage then creation, newest
   * first; the replaced record is in it whenever the id was.
   */
  lemma MarkedUsedSpec(prev: seq<Prompt>, id: string, updated: Prompt, millis: string -> int)
    ensures multiset(MarkedUsed(prev, id, updated, millis)) == multiset(ReplaceById(prev, id, updated))
    ensures SortedDesc(MarkedUsed(prev, id, updated, millis), UsageKey(millis))
    ensures |MarkedUsed(prev, id, updated, millis)| == |prev|
    ensures (exists k :: 0 <= k < |prev| && prev[k].id == id) ==> updated in MarkedUsed(prev, id, updated, millis)
  {
    var replaced := ReplaceById(prev, id, updated);
    SortDescSpec(replaced, UsageKey(millis));
    if exists k :: 0 <= k < |prev| && prev[k].id == id {
      var k :| 0 <= k < |prev| && prev[k].id == id;
      assert replaced[k] == updated;
      assert updated in multiset(replaced);
    }
  }

  /** A prompt never used sorts after one used at a positive time. */
  lemma NeverUsedSortsLast(p: Prompt, q: Prompt, millis: string -> int)
    requires p.lastUsedAt.Some? && p.lastUsedAt.value != [] && millis(p.lastUsedAt.value) > 0
    requires q.lastUsedAt.None?
    ensures AtLeast(UsageKey(millis)(p), UsageKey(millis)(q)) && !AtLeast(UsageKey(millis)(q), UsageKey(millis)(p))
  {
  }
}
