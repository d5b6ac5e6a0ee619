/** Small helpers: truncation for display, order-preserving de-duplication, blank checks. */
module Utils {
  import opened Wrappers
  import opened Text

  /**
   * `truncateText`: the text itself when it fits, otherwise its first
   * `maxLength` characters followed by "...".
   */
  function TruncateText(text: string, maxLength: int): (r: string)
    requires maxLength >= 0
    ensures |text| <= maxLength ==> r == text
    ensures |text| > maxLength ==> |r| == maxLength + 3 && r[..maxLength] == text[..maxLength] && r[maxLength..] == "..."
  {
    if |text| <= maxLength then text else text[..maxLength] + "..."
  }

  /** Truncating what was already truncated to the same length changes nothing. */
  lemma TruncateIdempotent(text: string, maxLength: int)
    requires maxLength >= 0
    ensures TruncateText(TruncateText(text, maxLength), maxLength) == TruncateText(text, maxLength)
  {
  }

  predicate NoDuplicates<T(==)>(s: seq<T>)
  {
    forall i, j :: 0 <= i < j < |s| ==> s[i] != s[j]
  }

  /** The position of the first occurrence of `x` in `s`. */
  function FirstIndex<T(==)>(s: seq<T>, x: T): (i: nat)
    requires x in s
    ensures i < |s| && s[i] == x && x !in s[..i]
  {
    if s[0] == x then 0 else 1 + FirstIndex(s[1..], x)
  }

  /** `Array.from(new Set(arr))`: each distinct element once, where it first occurs. */
  function UniqueArray<T(==)>(arr: seq<T>): (r: seq<T>)
    ensures forall i :: 0 <= i < |r| ==> r[i] in arr
    ensures forall i :: 0 <= i < |arr| ==> arr[i] in r
    ensures NoDuplicates(r)
  {
    if arr == [] then []
    else
      var init := arr[..|arr| - 1];
      var u := UniqueArray(init);
      assert forall i :: 0 <= i < |init| ==> arr[i] == init[i];
      if arr[|arr| - 1] in u then u else u + [arr[|arr| - 1]]
  }

  /** Moving to a longer array keeps the first occurrence of an element already present. */
  lemma FirstIndexPrefix<T>(s: seq<T>, t: seq<T>, x: T)
    requires x in s
    ensures x in s + t && FirstIndex(s + t, x) == FirstIndex(s, x)
  {
    var i := FirstIndex(s, x);
    FirstIndexAt(s + t, x, i);
  }

  /** The first position holding `x` is the one before which `x` does not occur. */
  lemma {:induction false} FirstIndexAt<T>(s: seq<T>, x: T, i: nat)
    requires i < |s| && s[i] == x && x !in s[..i]
    ensures FirstIndex(s, x) == i
  {
    if i > 0 {
      assert s[0] in s[..i];
      assert s[1..][..i - 1] == s[1..i];
      assert forall y :: y in s[1..i] ==> y in s[..i];
      FirstIndexAt(s[1..], x, i - 1);
    }
  }

  /** De-duplication lists the distinct elements in the order of their first occurrence. */
  lemma {:induction false} UniqueArrayOrder<T>(arr: seq<T>)
    ensures forall i, j :: 0 <= i < j < |UniqueArray(arr)| ==>
      FirstIndex(arr, UniqueArray(arr)[i]) < FirstIndex(arr, UniqueArray(arr)[j])
  {
    if arr != [] {
      var init := arr[..|arr| - 1];
      UniqueArrayOrder(init);
      UniqueArrayOrderStep(init, arr[|arr| - 1]);
      assert arr == init + [arr[|arr| - 1]];
    }
  }

  /** Appending one element keeps the order of the earlier first occurrences. */
  lemma UniqueArrayOrderStep<T>(init: seq<T>, last: T)
    requires forall i, j :: 0 <= i < j < |UniqueArray(init)| ==>
      FirstIndex(init, UniqueArray(init)[i]) < FirstIndex(init, UniqueArray(init)[j])
    ensures var arr := init + [last];
      forall i, j :: 0 <= i < j < |UniqueArray(arr)| ==>
        FirstIndex(arr, UniqueArray(arr)[i]) < FirstIndex(arr, UniqueArray(arr)[j])
  {
    var arr := init + [last];
    var u := UniqueArray(init);
    var r := UniqueArray(arr);
    assert arr[..|arr| - 1] == init;
    assert r == if last in u then u else u + [last];
    forall x | x in u ensures FirstIndex(arr, x) == FirstIndex(init, x) {
      FirstIndexPrefix(init, [last], x);
    }
    if last !in u {
      FirstIndexAt(arr, last, |init|);
      forall i, j | 0 <= i < j < |r| ensures FirstIndex(arr, r[i]) < FirstIndex(arr, r[j]) {
        assert r[i] == u[i] && r[i] in u;
        if j < |u| {
          assert r[j] == u[j] && r[j] in u;
        }
      }
    } else {
      forall i, j | 0 <= i < j < |r| ensures FirstIndex(arr, r[i]) < FirstIndex(arr, r[j]) {
        assert r[i] in u && r[j] in u;
      }
    }
  }

  /** An array without duplicates is its own de-duplication. */
  lemma {:induction false} UniqueArrayIdentity<T>(arr: seq<T>)
    requires NoDuplicates(arr)
    ensures UniqueArray(arr) == arr
  {
    if arr != [] {
      var init := arr[..|arr| - 1];
      UniqueArrayIdentity(init);
      assert arr[|arr| - 1] !in init;
      assert init + [arr[|arr| - 1]] == arr;
    }
  }

  /** De-duplicating twice is de-duplicating once. */
  lemma UniqueArrayIdempotent<T>(arr: seq<T>)
    ensures UniqueArray(UniqueArray(arr)) == UniqueArray(arr)
  {
    UniqueArrayIdentity(UniqueArray(arr));
  }

  /** `isEmpty`: missing, or nothing but whitespace. */
  function IsEmpty(str: Option<string>): (r: bool)
    ensures r <==> str.None? || AllWs(str.value)
  {
    if str.None? || str.value == [] then true
    else
      TrimEmpty(str.value);
      |Trim(str.value)| == 0
  }
}
