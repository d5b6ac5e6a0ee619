/**
 * The prompt record, its inputs, the type guard over parsed JSON and the
 * sanitiser that repairs a damaged stored record or rejects it.
 */
module PromptTypes {
  import opened Wrappers
  import opened JsonValues
  import opened Lists

  /** A saved prompt. Timestamps are ISO-8601 strings, kept as they were written. */
  datatype Prompt = Prompt(
    id: string,
    title: string,
    body: string,
    tags: Option<seq<string>>,
    createdAt: string,
    updatedAt: string,
    lastUsedAt: Option<string>)

  datatype CreatePromptInput = CreatePromptInput(title: string, body: string, tags: Option<seq<string>>)

  /** A partial update: `None` leaves the field as it is. */
  datatype UpdatePromptInput = UpdatePromptInput(title: Option<string>, body: Option<string>, tags: Option<seq<string>>)

  /** The keys a stored prompt object may carry. */
  const PromptKeys: set<string> := {"id", "title", "body", "tags", "createdAt", "updatedAt", "lastUsedAt"}

  /** The sanitiser never yields an empty tag list: no tags are stored as a missing field. */
  predicate WellFormed(p: Prompt)
  {
    p.tags != Some([])
  }

  /** `typeof t === "string"`, as a filter predicate. */
  function IsStr(): Json -> bool
  {
    (v: Json) => v.JStr?
  }

  /** `Array.isArray(v) && v.every(t => typeof t === "string")`. */
  predicate IsStringArray(v: Json)
  {
    v.JArr? && forall i :: 0 <= i < |v.items| ==> v.items[i].JStr?
  }

  /** `isValidPrompt`: the type guard over a parsed value. */
  function IsValidPrompt(data: Json): (r: bool)
    ensures r ==> forall now, later :: SanitizePrompt(data, now).Some? && SanitizePrompt(data, now) == SanitizePrompt(data, later)
  {
    IsObject(data)
    && IsStringProp(data, "id")
    && IsStringProp(data, "title")
    && IsStringProp(data, "body")
    && IsStringProp(data, "createdAt")
    && IsStringProp(data, "updatedAt")
    && (Prop(data, "tags").None? || IsStringArray(Prop(data, "tags").value))
    && (Prop(data, "lastUsedAt").None? || IsStringProp(data, "lastUsedAt"))
  }

  /** `items.filter(t => typeof t === "string")`, as strings. */
  function StringsOf(items: seq<Json>): (r: seq<string>)
    ensures |r| <= |items|
  {
    if items == [] then []
    else (if items[0].JStr? then [items[0].s] else []) + StringsOf(items[1..])
  }

  /** The string property `key` of `data`, or `fallback` when it is missing or not a string. */
  function StringOr(data: Json, key: string, fallback: string): string
  {
    if IsStringProp(data, key) then Prop(data, key).value.s else fallback
  }

  /**
   * `sanitizePrompt`: `None` unless `data` is an object with string `id`,
   * `title` and `body`; otherwise a prompt with a missing or non-string date
   * replaced by `now`, tags reduced to their string elements (and dropped
   * when none remain or when `tags` is not an array), and `lastUsedAt` kept
   * only when it is a string. Every other property is dropped.
   */
  function SanitizePrompt(data: Json, now: string): (r: Option<Prompt>)
    ensures r.Some? <==> IsObject(data) && IsStringProp(data, "id") && IsStringProp(data, "title") && IsStringProp(data, "body")
    ensures r.Some? ==> WellFormed(r.value)
  {
    if !IsObject(data) then None
    else if !IsStringProp(data, "id") || !IsStringProp(data, "title") || !IsStringProp(data, "body") then None
    else
      var tags :=
        if Prop(data, "tags").Some? && Prop(data, "tags").value.JArr? then
          var kept := StringsOf(Prop(data, "tags").value.items);
          if |kept| == 0 then None else Some(kept)
        else None;
      var lastUsedAt := if IsStringProp(data, "lastUsedAt") then Some(Prop(data, "lastUsedAt").value.s) else None;
      Some(Prompt(
        Prop(data, "id").value.s,
        Prop(data, "title").value.s,
        Prop(data, "body").value.s,
        tags,
        StringOr(data, "createdAt", now),
        StringOr(data, "updatedAt", now),
        lastUsedAt))
  }

  /**
   * `JSON.stringify` of a prompt, read back by `JSON.parse`: an object with a
   * property per defined field; an undefined optional field is omitted.
   */
  function ToJson(p: Prompt): Json
  {
    var base := map[
      "id" := JStr(p.id), "title" := JStr(p.title), "body" := JStr(p.body),
      "createdAt" := JStr(p.createdAt), "updatedAt" := JStr(p.updatedAt)];
    var withTags := if p.tags.Some? then base["tags" := JArr(StrArray(p.tags.value))] else base;
    JObj(if p.lastUsedAt.Some? then withTags["lastUsedAt" := JStr(p.lastUsedAt.value)] else withTags)
  }

  /** `p` as the sanitiser would give it back: an empty tag list becomes a missing one. */
  function Normalize(p: Prompt): (q: Prompt)
    ensures WellFormed(q)
    ensures WellFormed(p) ==> q == p
  {
    if p.tags == Some([]) then p.(tags := None) else p
  }

  /** Filtering the strings out of a string array gives back the strings. */
  lemma {:induction false} StringsOfStrArray(ss: seq<string>)
    ensures StringsOf(StrArray(ss)) == ss
  {
    if ss != [] {
      StringsOfStrArray(ss[1..]);
      assert StrArray(ss)[1..] == StrArray(ss[1..]);
    }
  }

  /** The filter keeps exactly the string elements. */
  lemma {:induction false} StringsOfMembers(items: seq<Json>)
    ensures forall x :: x in StringsOf(items) <==> JStr(x) in items
  {
    if items != [] {
      StringsOfMembers(items[1..]);
      assert items == [items[0]] + items[1..];
    }
  }

  /** On an all-string array the filter loses nothing. */
  lemma {:induction false} StringsOfAllStrings(items: seq<Json>)
    requires forall i :: 0 <= i < |items| ==> items[i].JStr?
    ensures |StringsOf(items)| == |items|
    ensures forall i :: 0 <= i < |items| ==> StringsOf(items)[i] == items[i].s
  {
    if items != [] {
      StringsOfAllStrings(items[1..]);
    }
  }

  /** Whatever a prompt holds, its stored form passes the type guard and carries only known keys. */
  lemma ToJsonValid(p: Prompt)
    ensures IsValidPrompt(ToJson(p))
    ensures ToJson(p).JObj? && ToJson(p).fields.Keys <= PromptKeys
  {
  }

  /** Sanitising a stored prompt gives it back, up to an empty tag list. */
  lemma SanitizeToJson(p: Prompt, now: string)
    ensures SanitizePrompt(ToJson(p), now) == Some(Normalize(p))
  {
    ToJsonProps(p);
    if p.tags.Some? {
      StringsOfStrArray(p.tags.value);
    }
  }

  /** Each field of a prompt is read back from its stored form under its own key. */
  lemma ToJsonProps(p: Prompt)
    ensures IsObject(ToJson(p))
    ensures Prop(ToJson(p), "id") == Some(JStr(p.id))
    ensures Prop(ToJson(p), "title") == Some(JStr(p.title))
    ensures Prop(ToJson(p), "body") == Some(JStr(p.body))
    ensures Prop(ToJson(p), "createdAt") == Some(JStr(p.createdAt))
    ensures Prop(ToJson(p), "updatedAt") == Some(JStr(p.updatedAt))
    ensures Prop(ToJson(p), "tags") == if p.tags.Some? then Some(JArr(StrArray(p.tags.value))) else None
    ensures Prop(ToJson(p), "lastUsedAt") == if p.lastUsedAt.Some? then Some(JStr(p.lastUsedAt.value)) else None
  {
  }

  /** The store/sanitise round trip is the identity exactly on well-formed prompts. */
  lemma SanitizeRoundTrip(p: Prompt, now: string)
    ensures SanitizePrompt(ToJson(p), now) == Some(p) <==> WellFormed(p)
  {
    SanitizeToJson(p, now);
  }

  /** Sanitising is idempotent: a sanitised prompt, stored and sanitised again, is unchanged. */
  lemma SanitizeIdempotent(data: Json, now: string, later: string)
    requires SanitizePrompt(data, now).Some?
    ensures SanitizePrompt(ToJson(SanitizePrompt(data, now).value), later) == SanitizePrompt(data, now)
  {
    SanitizeToJson(SanitizePrompt(data, now).value, later);
  }

  /**
   * A value that passes the type guard is accepted by the sanitiser, which
   * keeps its fields as they are (no date is replaced, so the clock does not
   * matter) and only turns an empty tag list into a missing one.
   */
  lemma SanitizeValid(data: Json, now: string)
    requires IsValidPrompt(data)
    ensures SanitizePrompt(data, now).Some?
    ensures var p := SanitizePrompt(data, now).value;
      && p.id == Prop(data, "id").value.s
      && p.title == Prop(data, "title").value.s
      && p.body == Prop(data, "body").value.s
      && p.createdAt == Prop(data, "createdAt").value.s
      && p.updatedAt == Prop(data, "updatedAt").value.s
      && (p.lastUsedAt.Some? <==> Prop(data, "lastUsedAt").Some?)
      && (p.lastUsedAt.Some? ==> p.lastUsedAt.value == Prop(data, "lastUsedAt").value.s)
      && (p.tags.Some? <==> Prop(data, "tags").Some? && Prop(data, "tags").value.items != [])
      && (p.tags.Some? ==>
            && |p.tags.value| == |Prop(data, "tags").value.items|
            && forall i :: 0 <= i < |p.tags.value| ==> p.tags.value[i] == Prop(data, "tags").value.items[i].s)
  {
    if Prop(data, "tags").Some? {
      StringsOfAllStrings(Prop(data, "tags").value.items);
    }
  }

  /**
   * Repairing a damaged record: `id`, `title` and `body` are copied, a string
   * date or `lastUsedAt` is kept, a non-string date becomes `now`, and the
   * tags kept are exactly the string elements of a `tags` array.
   */
  lemma SanitizeRepairs(data: Json, now: string)
    requires SanitizePrompt(data, now).Some?
    ensures var p := SanitizePrompt(data, now).value;
      && p.id == Prop(data, "id").value.s
      && p.title == Prop(data, "title").value.s
      && p.body == Prop(data, "body").value.s
      && (IsStringProp(data, "createdAt") ==> p.createdAt == Prop(data, "createdAt").value.s)
      && (IsStringProp(data, "updatedAt") ==> p.updatedAt == Prop(data, "updatedAt").value.s)
      && (IsStringProp(data, "lastUsedAt") ==> p.lastUsedAt == Some(Prop(data, "lastUsedAt").value.s))
      && (!IsStringProp(data, "createdAt") ==> p.createdAt == now)
      && (!IsStringProp(data, "updatedAt") ==> p.updatedAt == now)
      && (!IsStringProp(data, "lastUsedAt") ==> p.lastUsedAt.None?)
      && (Prop(data, "tags").None? || !Prop(data, "tags").value.JArr? ==> p.tags.None?)
      && (p.tags.Some? <==>
            Prop(data, "tags").Some? && Prop(data, "tags").value.JArr? && Filter(Prop(data, "tags").value.items, IsStr()) != [])
      && (p.tags.Some? ==> StrArray(p.tags.value) == Filter(Prop(data, "tags").value.items, IsStr()))
      && (p.tags.Some? ==> forall t :: t in p.tags.value <==> JStr(t) in Prop(data, "tags").value.items)
  {
    if Prop(data, "tags").Some? && Prop(data, "tags").value.JArr? {
      var items := Prop(data, "tags").value.items;
      StringsOfMembers(items);
      StringsOfIsFilter(items);
      assert StrArray([]) == [];
    }
  }

  /**
   * The kept tags, put back into JSON, are the string elements of the array
   * in their order and with their repetitions.
   */
  lemma {:induction false} StringsOfIsFilter(items: seq<Json>)
    ensures StrArray(StringsOf(items)) == Filter(items, IsStr())
  {
    if items != [] {
      StringsOfIsFilter(items[1..]);
      var head := if items[0].JStr? then [items[0].s] else [];
      var rest := StringsOf(items[1..]);
      assert StrArray(head + rest) == StrArray(head) + StrArray(rest);
      assert StrArray(head) == if IsStr()(items[0]) then [items[0]] else [];
    }
  }

  /** Test vector: only the string tags survive, in order. */
  lemma SanitizeTagsVector(now: string)
    ensures var data := JObj(map[
        "id" := JStr("test-id"), "title" := JStr("Test Title"), "body" := JStr("Test Body"),
        "createdAt" := JStr("2024-01-01T00:00:00.000Z"), "updatedAt" := JStr("2024-01-01T00:00:00.000Z"),
        "tags" := JArr([JStr("valid"), JNum(123), JStr("another"), JNull, JStr("last")])]);
      SanitizePrompt(data, now).Some? && SanitizePrompt(data, now).value.tags == Some(["valid", "another", "last"])
  {
    var items := [JStr("valid"), JNum(123), JStr("another"), JNull, JStr("last")];
    var data := JObj(map[
        "id" := JStr("test-id"), "title" := JStr("Test Title"), "body" := JStr("Test Body"),
        "createdAt" := JStr("2024-01-01T00:00:00.000Z"), "updatedAt" := JStr("2024-01-01T00:00:00.000Z"),
        "tags" := JArr(items)]);
    assert Prop(data, "tags") == Some(JArr(items));
    assert IsStringProp(data, "id") && IsStringProp(data, "title") && IsStringProp(data, "body");
    assert items[4..][1..] == [];
    assert StringsOf(items[4..]) == ["last"];
    assert items[3..][1..] == items[4..];
    assert StringsOf(items[3..]) == ["last"];
    assert items[2..][1..] == items[3..];
    assert StringsOf(items[2..]) == ["another", "last"];
    assert items[1..][1..] == items[2..];
    assert StringsOf(items[1..]) == ["another", "last"];
    assert StringsOf(items) == ["valid", "another", "last"];
  }

  /**
   * Test vector: every optional field damaged and an unknown property added;
   * the required strings survive, the dates come from the clock, the tags and
   * the unknown property are gone.
   */
  lemma SanitizeCorruptedVector(now: string)
    ensures var data := JObj(map[
        "id" := JStr("valid-id"), "title" := JStr("Valid Title"), "body" := JStr("Valid Body"),
        "createdAt" := JNum(123), "updatedAt" := JNull, "tags" := JStr("not-array"),
        "extraField" := JStr("should be ignored")]);
      SanitizePrompt(data, now) == Some(Prompt("valid-id", "Valid Title", "Valid Body", None, now, now, None))
  {
    var data := JObj(map[
        "id" := JStr("valid-id"), "title" := JStr("Valid Title"), "body" := JStr("Valid Body"),
        "createdAt" := JNum(123), "updatedAt" := JNull, "tags" := JStr("not-array"),
        "extraField" := JStr("should be ignored")]);
    assert IsStringProp(data, "id") && IsStringProp(data, "title") && IsStringProp(data, "body");
    assert Prop(data, "createdAt") == Some(JNum(123)) && Prop(data, "updatedAt") == Some(JNull);
    assert Prop(data, "tags") == Some(JStr("not-array")) && Prop(data, "lastUsedAt").None?;
  }
}
