/** The write side of the labelling routes: the single-sample edit with its next-sample
    redirect, the batch label that overwrites the filled slots of every selected sample, and
    the batch save that classifies each submitted row as a manual edit, an accepted
    pre-label or untouched. Each route is a function or method from the table before the
    commit to the table after it; a rolled-back request leaves the table as it was. */
module LabelingUpdate {
  import opened Wrappers
  import opened Text
  import opened Models
  import opened LabelingQuery
  import Cache

  /** `SampleData.query.get(id)`: the position of the row with that primary key. */
  function Find(table: Table, id: int): (r: Option<nat>)
    ensures r.Some? ==> && r.value < |table| && table[r.value].id == id
                        && forall k :: 0 <= k < r.value ==> table[k].id != id
    ensures r.None? ==> forall k :: 0 <= k < |table| ==> table[k].id != id
  {
    if table == [] then None
    else if table[0].id == id then Some(0)
    else
      match Find(table[1..], id)
      case None => None
      case Some(k) => Some(k + 1)
  }

  /** Five raw form values for the attribute slots, in slot order. */
  datatype SlotForm = SlotForm(a1: string, a2: string, a3: string, a4: string, a5: string)

  /** The form values after `.strip()`. */
  function StripForm(f: SlotForm): SlotForm {
    SlotForm(Strip(f.a1), Strip(f.a2), Strip(f.a3), Strip(f.a4), Strip(f.a5))
  }

  /** The slots a save writes from a form: every slot is set, to the stripped text (possibly
      empty, never NULL). */
  function FormSlots(f: SlotForm): (s: Slots)
    ensures s.a1 == Some(Strip(f.a1)) && s.a2 == Some(Strip(f.a2)) && s.a3 == Some(Strip(f.a3))
    ensures s.a4 == Some(Strip(f.a4)) && s.a5 == Some(Strip(f.a5))
  {
    var v := StripForm(f);
    Slots(Some(v.a1), Some(v.a2), Some(v.a3), Some(v.a4), Some(v.a5))
  }

  /** Only the note, the slots and the status of `r` may differ from `s`. */
  predicate OnlyLabelFieldsDiffer(s: Sample, r: Sample) {
    r.(note := s.note, attrs := s.attrs, status := s.status) == s
  }

  /** Only the slots and the status of `r` may differ from `s`. */
  predicate OnlySlotsAndStatusDiffer(s: Sample, r: Sample) {
    r.(attrs := s.attrs, status := s.status) == s
  }

  // ---------------------------------------------------------------- edit_sample (POST)

  /** The edit form: the note and the five slot values, each `''` when absent. */
  datatype EditForm = EditForm(note: string, slots: SlotForm)

  /** The POST branch of `edit_sample` on the row being edited. */
  function ApplyEdit(s: Sample, f: EditForm): (r: Sample)
    ensures OnlyLabelFieldsDiffer(s, r)
    ensures r.note == Some(Strip(f.note)) && r.attrs == FormSlots(f.slots)
    ensures r.status == Some(LABELED) <==>
              Strip(f.slots.a1) != "" && (Strip(f.slots.a2) != "" || Strip(f.slots.a3) != ""
                                          || Strip(f.slots.a4) != "" || Strip(f.slots.a5) != "")
    ensures r.status == Some(LABELED) || r.status == Some(INCOMPLETE)
  {
    var attrs := FormSlots(f.slots);
    var v := StripForm(f.slots);
    DeriveStatusOfTexts(v.a1, v.a2, v.a3, v.a4, v.a5);
    s.(note := Some(Strip(f.note)), attrs := attrs, status := Some(DeriveStatus(attrs)))
  }

  datatype EditError = NotFound | Forbidden

  /** The committed table and the sample the route redirects to next (`None`: back to the
      list with "all done"). */
  datatype EditOutcome = EditOutcome(table: Table, next: Option<Sample>)

  /** `edit_sample` POST: 404 for an unknown id, a redirect without change when the user may
      not see the sample, otherwise the edit is committed and the next sample is chosen from
      the committed table. */
  function EditSample(table: Table, id: int, u: User, f: EditForm): (r: Result<EditOutcome, EditError>)
    ensures r.Err? && r.error == NotFound <==> forall k :: 0 <= k < |table| ==> table[k].id != id
    ensures r.Err? && r.error == Forbidden <==>
              Find(table, id).Some? && !HasPermission(u, table[Find(table, id).value].category,
                                                      table[Find(table, id).value].brand)
    ensures r.Ok? ==> && Find(table, id).Some?
                      && var i := Find(table, id).value;
                         r.value.table == table[i := ApplyEdit(table[i], f)]
    ensures r.Ok? && r.value.next.Some? ==>
              var n := r.value.next.value;
              && n in r.value.table && n.id > id && !IsLabeled(n)
              && HasPermission(u, n.category, n.brand)
    ensures r.Ok? ==> r.value.next == NextSample(r.value.table, id, u)
  {
    match Find(table, id)
    case None => Err(NotFound)
    case Some(i) =>
      if !HasPermission(u, table[i].category, table[i].brand) then Err(Forbidden)
      else
        var t := table[i := ApplyEdit(table[i], f)];
        Ok(EditOutcome(t, NextSample(t, id, u)))
  }

  /** A committed edit rewrites the note, the slots and the status of the edited row and
      nothing else: the other rows and the other columns are as they were. */
  lemma EditChangesOnlyTheEditedRow(table: Table, id: int, u: User, f: EditForm, k: nat)
    requires EditSample(table, id, u, f).Ok? && k < |table|
    ensures var t := EditSample(table, id, u, f).value.table;
            && |t| == |table|
            && OnlyLabelFieldsDiffer(table[k], t[k])
            && (table[k].id != id ==> t[k] == table[k])
  {
    var i := Find(table, id).value;
    var t := EditSample(table, id, u, f).value.table;
    assert t == table[i := ApplyEdit(table[i], f)];
    if k == i {
      assert t[k] == ApplyEdit(table[k], f);
    } else {
      assert t[k] == table[k];
    }
  }

  /** The row just saved never comes back as the next sample: it is labelled or incomplete
      now, and the query looks only at larger ids. */
  lemma EditedSampleIsNotNext(table: Table, id: int, u: User, f: EditForm)
    requires EditSample(table, id, u, f).Ok?
    ensures var r := EditSample(table, id, u, f).value;
            r.next.None? || r.next.value.id != id
  {
  }

  // ---------------------------------------------------------------- batch_label (POST)

  /** A batch-label value overwrites its slot only when it is non-empty. */
  function Overwrite(slot: Option<string>, v: string): (r: Option<string>)
    ensures v != "" ==> r == Some(v)
    ensures v == "" ==> r == slot
  {
    if v != "" then Some(v) else slot
  }

  /** One selected sample under a stripped batch-label form: the filled values replace their
      slots, the others are kept, and the status is derived from the resulting slots. */
  function Relabel(s: Sample, v: SlotForm): (r: Sample)
    ensures OnlySlotsAndStatusDiffer(s, r)
    ensures r.attrs == Slots(Overwrite(s.attrs.a1, v.a1), Overwrite(s.attrs.a2, v.a2),
                             Overwrite(s.attrs.a3, v.a3), Overwrite(s.attrs.a4, v.a4),
                             Overwrite(s.attrs.a5, v.a5))
    ensures r.status == Some(DeriveStatus(r.attrs))
  {
    var attrs := Slots(Overwrite(s.attrs.a1, v.a1), Overwrite(s.attrs.a2, v.a2),
                       Overwrite(s.attrs.a3, v.a3), Overwrite(s.attrs.a4, v.a4),
                       Overwrite(s.attrs.a5, v.a5));
    s.(attrs := attrs, status := Some(DeriveStatus(attrs)))
  }

  /** Submitting the same batch label twice changes nothing the second time. */
  lemma RelabelIdempotent(s: Sample, v: SlotForm)
    ensures Relabel(Relabel(s, v), v) == Relabel(s, v)
  {
  }

  /** A batch label with every value filled gives every selected sample the same slots and
      the Labeled status, whatever it held before. */
  lemma FullRelabelIsUniform(s: Sample, t: Sample, v: SlotForm)
    requires v.a1 != "" && v.a2 != "" && v.a3 != "" && v.a4 != "" && v.a5 != ""
    ensures Relabel(s, v).attrs == Relabel(t, v).attrs
    ensures Relabel(s, v).status == Some(LABELED)
  {
  }

  /** `SampleData.id.in_(ids)`. */
  predicate Selected(ids: seq<int>, s: Sample) {
    s.id in ids
  }

  /** `batch_label` POST. The permission loop stops at the first selected sample the user may
      not see and reports its id; then nothing is written. Otherwise every selected sample is
      relabelled with the stripped form and every other row is kept. */
  method BatchLabel(table: Table, u: User, ids: seq<int>, form: SlotForm)
    returns (out: Table, denied: Option<int>)
    ensures denied.None? <==>
              forall k :: 0 <= k < |table| && Selected(ids, table[k]) ==>
                            HasPermission(u, table[k].category, table[k].brand)
    ensures denied.Some? ==> out == table
    ensures denied.Some? ==> exists k :: && 0 <= k < |table| && table[k].id == denied.value
                                         && Selected(ids, table[k])
                                         && !HasPermission(u, table[k].category, table[k].brand)
    ensures denied.None? ==> |out| == |table|
    ensures denied.None? ==> forall k :: 0 <= k < |table| ==>
              out[k] == if Selected(ids, table[k]) then Relabel(table[k], StripForm(form)) else table[k]
  {
    var i := 0;
    while i < |table|
      invariant 0 <= i <= |table|
      invariant forall k :: 0 <= k < i && Selected(ids, table[k]) ==>
                              HasPermission(u, table[k].category, table[k].brand)
    {
      if Selected(ids, table[i]) && !HasPermission(u, table[i].category, table[i].brand) {
        return table, Some(table[i].id);
      }
      i := i + 1;
    }
    var v := StripForm(form);
    out := table;
    i := 0;
    while i < |out|
      invariant 0 <= i <= |out| == |table|
      invariant forall k :: 0 <= k < i ==>
                  out[k] == if Selected(ids, table[k]) then Relabel(table[k], v) else table[k]
      invariant forall k :: i <= k < |table| ==> out[k] == table[k]
    {
      if Selected(ids, out[i]) {
        out := out[i := Relabel(out[i], v)];
      }
      i := i + 1;
    }
    denied := None;
  }

  // ---------------------------------------------------------------- batch_save

  /** One submitted row of the page: the parsed `sample_ids[]` entry (`None` when `int()`
      raises), the edited slot values, the original slot values and status from the hidden
      fields, and the raw `accept_<id>` value. */
  datatype SaveEdit = SaveEdit(id: Option<int>, values: SlotForm, originals: SlotForm,
                               origStatus: string, accept: Option<string>)

  datatype SaveKind = Skipped | Manual | Accepted | Untouched

  /** Some stripped value differs from its stripped original. */
  predicate Changed(e: SaveEdit) {
    var v, o := StripForm(e.values), StripForm(e.originals);
    v.a1 != o.a1 || v.a2 != o.a2 || v.a3 != o.a3 || v.a4 != o.a4 || v.a5 != o.a5
  }

  /** The branch `batch_save` takes for one submitted row against the current table. */
  function Classify(t: Table, u: User, e: SaveEdit): (k: SaveKind)
    ensures k != Skipped <==> && e.id.Some? && Find(t, e.id.value).Some?
                              && var s := t[Find(t, e.id.value).value];
                                 HasPermission(u, s.category, s.brand)
    ensures k != Skipped ==> (k == Manual <==> Changed(e))
    ensures k != Skipped ==>
              (k == Accepted <==> !Changed(e) && Strip(e.origStatus) == PRELABELED && e.accept == Some("1"))
  {
    if e.id.None? then Skipped
    else
      match Find(t, e.id.value)
      case None => Skipped
      case Some(i) =>
        if !HasPermission(u, t[i].category, t[i].brand) then Skipped
        else if Changed(e) then Manual
        else if Strip(e.origStatus) == PRELABELED && e.accept == Some("1") then Accepted
        else Untouched
  }

  /** What a branch does to the row: a manual edit writes all five slots and derives the
      status from them; an accepted pre-label keeps its slots and derives the status from
      them; the other branches leave the row alone. */
  function Saved(s: Sample, e: SaveEdit, kind: SaveKind): (r: Sample)
    ensures OnlySlotsAndStatusDiffer(s, r)
    ensures kind == Manual ==> r.attrs == FormSlots(e.values)
    ensures kind == Accepted ==> r.attrs == s.attrs
    ensures kind == Manual || kind == Accepted ==> r.status == Some(DeriveStatus(r.attrs))
    ensures kind == Skipped || kind == Untouched ==> r == s
  {
    match kind
    case Manual =>
      var attrs := FormSlots(e.values);
      s.(attrs := attrs, status := Some(DeriveStatus(attrs)))
    case Accepted => s.(status := Some(DeriveStatus(s.attrs)))
    case _ => s
  }

  /** One iteration of the loop on the table. */
  function SaveStep(t: Table, u: User, e: SaveEdit): (r: Table)
    ensures |r| == |t|
  {
    var kind := Classify(t, u, e);
    if kind == Skipped then t
    else
      var i := Find(t, e.id.value).value;
      t[i := Saved(t[i], e, kind)]
  }

  /** The table and the two counters after the whole loop. */
  datatype SaveResult = SaveResult(table: Table, manual: nat, accepted: nat)

  /** One iteration of the loop on the table and the two counters. */
  function SaveNext(acc: SaveResult, u: User, e: SaveEdit): (r: SaveResult)
    ensures |r.table| == |acc.table|
    ensures r.manual + r.accepted <= acc.manual + acc.accepted + 1
  {
    var kind := Classify(acc.table, u, e);
    SaveResult(SaveStep(acc.table, u, e),
               acc.manual + (if kind == Manual then 1 else 0),
               acc.accepted + (if kind == Accepted then 1 else 0))
  }

  /** The loop over the submitted rows, as a left fold. */
  function SaveAll(table: Table, u: User, edits: seq<SaveEdit>): (r: SaveResult)
    ensures |r.table| == |table|
    ensures r.manual + r.accepted <= |edits|
    decreases |edits|
  {
    if edits == [] then SaveResult(table, 0, 0)
    else SaveNext(SaveAll(table, u, edits[..|edits| - 1]), u, edits[|edits| - 1])
  }

  /** A changed row the user may see is written from the form and counted as manual. */
  lemma SaveNextManual(acc: SaveResult, u: User, e: SaveEdit, k: nat)
    requires e.id.Some? && Find(acc.table, e.id.value) == Some(k)
    requires HasPermission(u, acc.table[k].category, acc.table[k].brand)
    requires Changed(e)
    ensures var t, attrs := acc.table, FormSlots(e.values);
            SaveNext(acc, u, e)
            == SaveResult(t[k := t[k].(attrs := attrs, status := Some(DeriveStatus(attrs)))],
                          acc.manual + 1, acc.accepted)
  {
    var t := acc.table;
    assert Classify(t, u, e) == Manual;
    assert SaveStep(t, u, e) == t[k := Saved(t[k], e, Manual)];
  }

  /** An unchanged pre-labelled row the user may see and accepted gets the status its
      slots derive and is counted as accepted. */
  lemma SaveNextAccepted(acc: SaveResult, u: User, e: SaveEdit, k: nat)
    requires e.id.Some? && Find(acc.table, e.id.value) == Some(k)
    requires HasPermission(u, acc.table[k].category, acc.table[k].brand)
    requires !Changed(e) && Strip(e.origStatus) == PRELABELED && e.accept == Some("1")
    ensures var t := acc.table;
            SaveNext(acc, u, e)
            == SaveResult(t[k := t[k].(status := Some(DeriveStatus(t[k].attrs)))],
                          acc.manual, acc.accepted + 1)
  {
    var t := acc.table;
    assert Classify(t, u, e) == Accepted;
    assert SaveStep(t, u, e) == t[k := Saved(t[k], e, Accepted)];
  }

  /** Any other row the user may see is left alone and not counted. */
  lemma SaveNextUntouched(acc: SaveResult, u: User, e: SaveEdit, k: nat)
    requires e.id.Some? && Find(acc.table, e.id.value) == Some(k)
    requires HasPermission(u, acc.table[k].category, acc.table[k].brand)
    requires !Changed(e) && !(Strip(e.origStatus) == PRELABELED && e.accept == Some("1"))
    ensures SaveNext(acc, u, e) == acc
  {
    var t := acc.table;
    assert Classify(t, u, e) == Untouched;
    assert t[k := t[k]] == t;
  }

  /** A row that is missing, or that the user may not see, is skipped. */
  lemma SaveNextSkipsHiddenRow(acc: SaveResult, u: User, e: SaveEdit)
    requires e.id.Some?
    requires var found := Find(acc.table, e.id.value);
             found.None? || !HasPermission(u, acc.table[found.value].category, acc.table[found.value].brand)
    ensures SaveNext(acc, u, e) == acc
  {
  }

  /** SaveAll over one more edit is one more step. */
  lemma SaveAllSnoc(table: Table, u: User, edits: seq<SaveEdit>, e: SaveEdit)
    ensures SaveAll(table, u, edits + [e]) == SaveNext(SaveAll(table, u, edits), u, e)
  {
    assert (edits + [e])[..|edits|] == edits;
  }

  /** The body of the loop for one submitted row with an integer id: a manual edit, an
      accepted pre-label or nothing, and which counter it bumps. */
  method SaveRow(acc: SaveResult, u: User, e: SaveEdit) returns (r: SaveResult)
    requires e.id.Some?
    ensures r == SaveNext(acc, u, e)
  {
    var t, manual, accepted := acc.table, acc.manual, acc.accepted;
    var found := Find(t, e.id.value);
    if found.Some? && HasPermission(u, t[found.value].category, t[found.value].brand) {
      var k := found.value;
      if Changed(e) {
        SaveNextManual(acc, u, e, k);
        var attrs := FormSlots(e.values);
        t := t[k := t[k].(attrs := attrs, status := Some(DeriveStatus(attrs)))];
        manual := manual + 1;
      } else if Strip(e.origStatus) == PRELABELED && e.accept == Some("1") {
        SaveNextAccepted(acc, u, e, k);
        t := t[k := t[k].(status := Some(DeriveStatus(t[k].attrs)))];
        accepted := accepted + 1;
      } else {
        SaveNextUntouched(acc, u, e, k);
      }
    } else {
      SaveNextSkipsHiddenRow(acc, u, e);
    }
    r := SaveResult(t, manual, accepted);
  }

  /** One pass of the loop of `batch_save` at a submitted row with an integer id: the state
      after the rows `done` becomes the state after `done + [e]`. */
  method SaveAt(table: Table, u: User, done: seq<SaveEdit>, e: SaveEdit, acc: SaveResult)
    returns (next: SaveResult)
    requires e.id.Some? && acc == SaveAll(table, u, done)
    ensures next == SaveAll(table, u, done + [e])
  {
    next := SaveRow(acc, u, e);
    SaveAllSnoc(table, u, done, e);
  }

  /** `batch_save`: `None` when a submitted id is not an integer, in which case the handler
      rolls the session back and nothing is committed; otherwise the committed table and the
      two counts. */
  method BatchSave(table: Table, u: User, edits: seq<SaveEdit>) returns (r: Option<SaveResult>)
    ensures r.None? <==> exists j :: 0 <= j < |edits| && edits[j].id.None?
    ensures r.Some? ==> r.value == SaveAll(table, u, edits)
  {
    var acc := SaveResult(table, 0, 0);
    var done: seq<SaveEdit> := [];
    var i := 0;
    while i < |edits|
      invariant 0 <= i <= |edits| && done == edits[..i]
      invariant forall j :: 0 <= j < i ==> edits[j].id.Some?
      invariant acc == SaveAll(table, u, done)
    {
      var e := edits[i];
      if e.id.None? {
        return None;
      }
      assert done + [e] == edits[..i + 1];
      assert forall j :: 0 <= j < i + 1 ==> edits[j].id.Some?;
      acc := SaveAt(table, u, done, e, acc);
      done := done + [e];
      i := i + 1;
    }
    assert done == edits;
    r := Some(acc);
  }

  /** An unchanged row whose original status is Historical (or anything but Prelabeled) is
      left exactly as it was, accept flag or not. */
  lemma UnchangedNonPrelabeledIsUntouched(t: Table, u: User, e: SaveEdit)
    requires !Changed(e) && Strip(e.origStatus) != PRELABELED
    ensures SaveStep(t, u, e) == t
  {
  }

  /** Whatever the batch save does to a row keeps its identity and scope: the rows that
      differ afterwards were submitted, are visible to the user, changed only in their slots
      and status, and carry the status derived from their slots. */
  lemma {:induction false} SaveAllChangesOnlySubmittedPermittedRows(table: Table, u: User,
                                                                    edits: seq<SaveEdit>, k: nat)
    requires k < |table|
    ensures var t := SaveAll(table, u, edits).table;
            t[k] == table[k] || (
              && (exists j :: 0 <= j < |edits| && edits[j].id == Some(table[k].id))
              && HasPermission(u, table[k].category, table[k].brand)
              && OnlySlotsAndStatusDiffer(table[k], t[k])
              && t[k].status == Some(DeriveStatus(t[k].attrs)))
    decreases |edits|
  {
    if edits != [] {
      var init := edits[..|edits| - 1];
      var prev := SaveAll(table, u, init).table;
      var e := edits[|edits| - 1];
      SaveAllChangesOnlySubmittedPermittedRows(table, u, init, k);
      var kind := Classify(prev, u, e);
      if kind != Skipped {
        var i := Find(prev, e.id.value).value;
        if i == k {
          var s := Saved(prev[k], e, kind);
          assert prev[k].id == table[k].id;
          assert edits[|edits| - 1].id == Some(table[k].id);
          if s != prev[k] {
            assert HasPermission(u, table[k].category, table[k].brand);
          } else if prev[k] != table[k] {
            assert exists j :: 0 <= j < |init| && init[j].id == Some(table[k].id);
          }
        } else if prev[k] != table[k] {
          assert exists j :: 0 <= j < |init| && init[j].id == Some(table[k].id);
        }
      } else if prev[k] != table[k] {
        assert exists j :: 0 <= j < |init| && init[j].id == Some(table[k].id);
      }
    }
  }

  /** Rows the user may not see, and rows whose id was not submitted, come out of a batch
      save unchanged. */
  lemma SaveAllKeepsOtherRows(table: Table, u: User, edits: seq<SaveEdit>, k: nat)
    requires k < |table|
    requires !HasPermission(u, table[k].category, table[k].brand)
             || forall j :: 0 <= j < |edits| ==> edits[j].id != Some(table[k].id)
    ensures SaveAll(table, u, edits).table[k] == table[k]
  {
    SaveAllChangesOnlySubmittedPermittedRows(table, u, edits, k);
  }

  // ---------------------------------------------------------------- committing and the cache

  /** `edit_sample` POST followed by `clear_cache(user_specific=True)` on success. */
  method CommitEdit(cache: Cache.MemoCache<seq<string>>, table: Table, id: int, u: User, f: EditForm)
    returns (r: Result<EditOutcome, EditError>)
    requires cache.Valid()
    modifies cache
    ensures cache.Valid()
    ensures r == EditSample(table, id, u, f)
    ensures r.Err? ==> cache.values == old(cache.values) && cache.expiry == old(cache.expiry)
    ensures r.Ok? ==> && cache.values == Cache.WithoutMatching(old(cache.values), Cache.UserSuffix(u))
                      && cache.expiry == Cache.WithoutMatching(old(cache.expiry), Cache.UserSuffix(u))
  {
    r := EditSample(table, id, u, f);
    if r.Ok? {
      cache.Clear(true, Some(u));
    }
  }

  /** `batch_label` POST followed by the full `clear_cache()` once the labels are written. */
  method CommitBatchLabel(cache: Cache.MemoCache<seq<string>>, table: Table, u: User, ids: seq<int>,
                          form: SlotForm)
    returns (out: Table, denied: Option<int>)
    requires cache.Valid()
    modifies cache
    ensures cache.Valid()
    ensures denied.None? <==>
              forall k :: 0 <= k < |table| && Selected(ids, table[k]) ==>
                            HasPermission(u, table[k].category, table[k].brand)
    ensures denied.Some? ==> exists k :: && 0 <= k < |table| && table[k].id == denied.value
                                         && Selected(ids, table[k])
                                         && !HasPermission(u, table[k].category, table[k].brand)
    ensures denied.None? ==> |out| == |table|
    ensures denied.None? ==> forall k :: 0 <= k < |table| ==>
              out[k] == if Selected(ids, table[k]) then Relabel(table[k], StripForm(form)) else table[k]
    ensures denied.Some? ==> out == table && cache.values == old(cache.values)
                             && cache.expiry == old(cache.expiry)
    ensures denied.None? ==> cache.values == map[] && cache.expiry == map[]
  {
    out, denied := BatchLabel(table, u, ids, form);
    if denied.None? {
      cache.Clear(false, None);
    }
  }

  /** `batch_save` followed by the full `clear_cache()`, which runs only when a row was
      saved or accepted. */
  method CommitBatchSave(cache: Cache.MemoCache<seq<string>>, table: Table, u: User,
                         edits: seq<SaveEdit>)
    returns (r: Option<SaveResult>)
    requires cache.Valid()
    modifies cache
    ensures cache.Valid()
    ensures r.None? <==> exists j :: 0 <= j < |edits| && edits[j].id.None?
    ensures r.Some? ==> r.value == SaveAll(table, u, edits)
    ensures (r.Some? && r.value.manual + r.value.accepted > 0) ==>
              cache.values == map[] && cache.expiry == map[]
    ensures !(r.Some? && r.value.manual + r.value.accepted > 0) ==>
              cache.values == old(cache.values) && cache.expiry == old(cache.expiry)
  {
    r := BatchSave(table, u, edits);
    if r.Some? && r.value.manual + r.value.accepted > 0 {
      cache.Clear(false, None);
    }
  }
}
