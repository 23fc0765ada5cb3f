/**
 * The plugin's settings store: the work-mode flag, the keep-pinned-DMs flag and
 * the set of work identifiers, kept as one comma-joined string that every read
 * splits again, without de-duplication or validation.
 */
module Settings {

  import opened Wrappers
  import JsString
  import JsArray

  const Comma: string := ","

  /**
   * `getWorkIds()`: the comma-separated pieces of the stored string, or `[]`
   * when the string is undefined. A defined string, even `""`, has at least one
   * piece, and joining the pieces again gives back the stored string.
   */
  function GetWorkIds(workIds: Option<string>): (ids: seq<string>)
    ensures workIds.None? ==> ids == []
    ensures workIds.Some? ==> |ids| >= 1 && JsString.Join(ids, Comma) == workIds.value
  {
    match workIds
    case None => []
    case Some(w) =>
      JsString.JoinSplit(w, Comma);
      JsString.Split(w, Comma)
  }

  /**
   * `isWorkModeId(id)`: whether `id` is one of the pieces of the stored string;
   * false when the string is undefined. It agrees with membership in `getWorkIds()`.
   */
  predicate IsWorkModeId(workIds: Option<string>, id: string)
    ensures IsWorkModeId(workIds, id) <==> id in GetWorkIds(workIds)
  {
    match workIds
    case None => false
    case Some(w) => id in JsString.Split(w, Comma)
  }

  /** `isNotWorkModeId(id)`: the negation of `isWorkModeId(id)`. */
  predicate IsNotWorkModeId(workIds: Option<string>, id: string)
    ensures IsNotWorkModeId(workIds, id) <==> id !in GetWorkIds(workIds)
  {
    !IsWorkModeId(workIds, id)
  }

  /** The string `addToWorkIds(id)` stores: the current pieces with `id` pushed last, re-joined. */
  function AddedWorkIds(workIds: Option<string>, id: string): string
  {
    JsString.Join(GetWorkIds(workIds) + [id], Comma)
  }

  /** The filter callback of `removeFromWorkIds`: it accepts every piece that differs from `id`. */
  function NotEqualTo(id: string): string -> bool
  {
    (i: string) => i != id
  }

  /** The pieces `removeFromWorkIds(id)` keeps: every piece except those equal to `id`. */
  function Remaining(workIds: Option<string>, id: string): seq<string>
  {
    JsArray.Filter(GetWorkIds(workIds), NotEqualTo(id))
  }

  /** The string `removeFromWorkIds(id)` stores: the kept pieces, re-joined. */
  function RemovedWorkIds(workIds: Option<string>, id: string): string
  {
    JsString.Join(Remaining(workIds, id), Comma)
  }

  /** No piece of the stored string contains a comma. */
  lemma {:induction false} PiecesLackComma(workIds: Option<string>)
    ensures forall p :: p in GetWorkIds(workIds) ==> ',' !in p
  {
    if workIds.Some? {
      JsString.SplitLacksSeparator(workIds.value, ',');
    }
  }

  /** An id that contains a comma is never a work id, whatever has been added. */
  lemma {:induction false} IdWithCommaNeverMember(workIds: Option<string>, id: string)
    requires ',' in id
    ensures !IsWorkModeId(workIds, id)
  {
    PiecesLackComma(workIds);
  }

  /** Reading back a string made by joining comma-free pieces gives those pieces, or `[""]` for none. */
  lemma {:induction false} ReadBackJoined(pieces: seq<string>)
    requires forall p :: p in pieces ==> ',' !in p
    ensures GetWorkIds(Some(JsString.Join(pieces, Comma))) == if pieces == [] then [""] else pieces
  {
    if pieces != [] {
      JsString.SplitJoin(pieces, ',');
    }
  }

  /**
   * After `addToWorkIds(id)` the pieces are the earlier ones, unchanged and in
   * order, followed by the pieces of `id` itself; for a comma-free `id` that is
   * `id` as the single last piece (added again even when already present),
   * so `id` is then a work id.
   */
  lemma {:induction false} AddAppendsId(workIds: Option<string>, id: string)
    ensures GetWorkIds(Some(AddedWorkIds(workIds, id))) == GetWorkIds(workIds) + JsString.Split(id, Comma)
    ensures ',' !in id ==> GetWorkIds(Some(AddedWorkIds(workIds, id))) == GetWorkIds(workIds) + [id]
    ensures ',' !in id ==> IsWorkModeId(Some(AddedWorkIds(workIds, id)), id)
  {
    var old_ := GetWorkIds(workIds);
    if old_ == [] {
      assert old_ + [id] == [id];
    } else {
      JsString.JoinAppend(old_, id, Comma);
      PiecesLackComma(workIds);
      JsString.SplitConcat(JsString.Join(old_, Comma), id, ',');
      JsString.SplitJoin(old_, ',');
    }
    if ',' !in id {
      JsString.SplitWithoutSeparator(id, Comma);
      assert id == (old_ + [id])[|old_|];
    }
  }

  /**
   * After `removeFromWorkIds(id)` the pieces are the earlier ones without any
   * piece equal to `id` (duplicates included), the rest in their order; when
   * nothing is left the stored string is `""`, which reads back as `[""]`.
   */
  lemma {:induction false} RemoveDropsId(workIds: Option<string>, id: string)
    ensures GetWorkIds(Some(RemovedWorkIds(workIds, id))) ==
            if Remaining(workIds, id) == [] then [""] else Remaining(workIds, id)
    ensures JsArray.SubsequenceOf(Remaining(workIds, id), GetWorkIds(workIds))
    ensures forall x :: x in Remaining(workIds, id) <==> x in GetWorkIds(workIds) && x != id
    ensures id != "" ==> !IsWorkModeId(Some(RemovedWorkIds(workIds, id)), id)
  {
    PiecesLackComma(workIds);
    ReadBackJoined(Remaining(workIds, id));
  }

  /**
   * Removing `id` changes membership of no other non-empty id. The empty id is
   * the exception: once the last piece is removed, `""` is stored and `""` reads
   * back as a work id.
   */
  lemma {:induction false} RemoveKeepsOthers(workIds: Option<string>, id: string, x: string)
    requires x != id && x != ""
    ensures IsWorkModeId(Some(RemovedWorkIds(workIds, id)), x) <==> IsWorkModeId(workIds, x)
  {
    RemoveDropsId(workIds, id);
  }

  /** Removing an id that is not present leaves a defined stored string exactly as it was. */
  lemma {:induction false} RemoveAbsentUnchanged(w: string, id: string)
    requires !IsWorkModeId(Some(w), id)
    ensures RemovedWorkIds(Some(w), id) == w
  {
    JsArray.FilterKeepsAll(GetWorkIds(Some(w)), NotEqualTo(id));
  }

  /** Removing the same id twice stores the same string as removing it once. */
  lemma {:induction false} RemoveIdempotent(workIds: Option<string>, id: string)
    ensures RemovedWorkIds(Some(RemovedWorkIds(workIds, id)), id) == RemovedWorkIds(workIds, id)
  {
    var once := RemovedWorkIds(workIds, id);
    RemoveDropsId(workIds, id);
    if Remaining(workIds, id) == [] {
      assert GetWorkIds(Some(once)) == [""];
      if id == "" {
        assert Remaining(Some(once), id) == [];
      } else {
        assert Remaining(Some(once), id) == [""];
      }
    } else {
      JsArray.FilterKeepsAll(Remaining(workIds, id), NotEqualTo(id));
    }
  }

  /**
   * The default stored string `""` reads back as the single piece `""`: the
   * empty id is a work id and no other id is, and removing `""` from it stores
   * `""` again, which still holds `""`.
   */
  lemma EmptyStoreHoldsEmptyId(id: string)
    ensures GetWorkIds(Some("")) == [""]
    ensures IsWorkModeId(Some(""), id) <==> id == ""
    ensures RemovedWorkIds(Some(""), "") == "" && IsWorkModeId(Some(RemovedWorkIds(Some(""), "")), "")
  {
  }

  /**
   * The context menu offers "Remove" for a work id and "Add" otherwise; for a
   * non-empty comma-free id, choosing by membership always flips membership.
   */
  lemma {:induction false} ContextMenuFlipsMembership(workIds: Option<string>, id: string)
    requires id != "" && ',' !in id
    ensures var next := if IsWorkModeId(workIds, id) then RemovedWorkIds(workIds, id) else AddedWorkIds(workIds, id);
            IsWorkModeId(Some(next), id) <==> !IsWorkModeId(workIds, id)
  {
    if IsWorkModeId(workIds, id) {
      RemoveDropsId(workIds, id);
    } else {
      AddAppendsId(workIds, id);
    }
  }

  /** The settings store, whose fields the plugin reads on every call and updates in place. */
  class SettingsStore {
    var workModeEnabled: bool
    var keepPinnedDms: bool
    var workIds: Option<string>

    /** The defaults: work mode off, pinned DMs not kept, no work ids (`""`). */
    constructor ()
      ensures !workModeEnabled && !keepPinnedDms && workIds == Some("")
    {
      workModeEnabled := false;
      keepPinnedDms := false;
      workIds := Some("");
    }

    /** `toggleWorkMode()`: negates the work-mode flag and touches nothing else. */
    method ToggleWorkMode()
      modifies this
      ensures workModeEnabled == !old(workModeEnabled)
      ensures keepPinnedDms == old(keepPinnedDms) && workIds == old(workIds)
    {
      workModeEnabled := !workModeEnabled;
    }

    /** `addToWorkIds(id)`: pushes `id` onto the current pieces and stores their join. */
    method AddToWorkIds(id: string)
      modifies this
      ensures workModeEnabled == old(workModeEnabled) && keepPinnedDms == old(keepPinnedDms)
      ensures workIds == Some(AddedWorkIds(old(workIds), id))
      ensures GetWorkIds(workIds) == GetWorkIds(old(workIds)) + JsString.Split(id, Comma)
      ensures ',' !in id ==> IsWorkModeId(workIds, id)
    {
      var items := GetWorkIds(workIds);
      items := items + [id];
      workIds := Some(JsString.Join(items, Comma));
      AddAppendsId(old(workIds), id);
    }

    /** `removeFromWorkIds(id)`: stores the join of the pieces that differ from `id`. */
    method RemoveFromWorkIds(id: string)
      modifies this
      ensures workModeEnabled == old(workModeEnabled) && keepPinnedDms == old(keepPinnedDms)
      ensures workIds == Some(RemovedWorkIds(old(workIds), id))
      ensures id != "" ==> !IsWorkModeId(workIds, id)
      ensures forall x :: x != id && x != "" ==> (IsWorkModeId(workIds, x) <==> IsWorkModeId(old(workIds), x))
    {
      var items := GetWorkIds(workIds);
      workIds := Some(JsString.Join(JsArray.Filter(items, NotEqualTo(id)), Comma));
      RemoveDropsId(old(workIds), id);
      forall x | x != id && x != ""
        ensures IsWorkModeId(workIds, x) <==> IsWorkModeId(old(workIds), x)
      {
        RemoveKeepsOthers(old(workIds), id, x);
      }
    }
  }

  /** Two presses of the toolbox toggle restore every field of the store. */
  method ToggleTwice(store: SettingsStore)
    modifies store
    ensures store.workModeEnabled == old(store.workModeEnabled)
    ensures store.keepPinnedDms == old(store.keepPinnedDms) && store.workIds == old(store.workIds)
  {
    store.ToggleWorkMode();
    store.ToggleWorkMode();
  }
}
