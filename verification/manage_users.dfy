/** The admin `ManageUsersScreen`: an in-memory resident list with one form
    used both to add a resident and to edit the one selected with "Düzenle". */
module ManageUsers {
  import opened Types
  import Text
  import Seqs

  datatype UserRecord = UserRecord(
    id: string,
    firstName: string,
    lastName: string,
    siteName: string,
    block: string,
    apartmentNo: int,
    phoneNumber: string)

  /** The six text inputs. */
  datatype Form = Form(
    firstName: string,
    lastName: string,
    siteName: string,
    block: string,
    apartmentNo: string,
    phoneNumber: string)

  const EmptyForm := Form("", "", "", "", "", "")

  datatype Screen = Screen(residents: seq<UserRecord>, form: Form, editing: Option<UserRecord>)

  datatype Outcome = MissingFields | Saved

  datatype SubmitResult = SubmitResult(screen: Screen, outcome: Outcome)

  /** The check at the top of `addResident`: four fields must be non-blank
      (`x.trim() !== ''`, see `FormCompleteIsTrimCheck`), `apartmentNo` only
      non-empty; `siteName` is optional. */
  predicate FormComplete(f: Form) {
    && !Text.Blank(f.firstName)
    && !Text.Blank(f.lastName)
    && !Text.Blank(f.block)
    && f.apartmentNo != ""
    && !Text.Blank(f.phoneNumber)
  }

  /** `FormComplete` is the screen's own condition, written with `trim`. */
  lemma FormCompleteIsTrimCheck(f: Form)
    ensures FormComplete(f) <==>
      && Text.Trim(f.firstName) != ""
      && Text.Trim(f.lastName) != ""
      && Text.Trim(f.block) != ""
      && f.apartmentNo != ""
      && Text.Trim(f.phoneNumber) != ""
  {
    Text.TrimEmptyIffBlank(f.firstName);
    Text.TrimEmptyIffBlank(f.lastName);
    Text.TrimEmptyIffBlank(f.block);
    Text.TrimEmptyIffBlank(f.phoneNumber);
  }

  /** The record `r` after the edit `{ ...r, <form fields> }`: the id stays. */
  function Overwrite(r: UserRecord, f: Form, apartmentNo: int): UserRecord {
    UserRecord(r.id, f.firstName, f.lastName, f.siteName, f.block, apartmentNo, f.phoneNumber)
  }

  /** `residents.map(r => r.id === id ? { ...r, ... } : r)`. */
  function EditRecords(rs: seq<UserRecord>, id: string, f: Form, apartmentNo: int): (r: seq<UserRecord>)
    ensures |r| == |rs|
    ensures forall i :: 0 <= i < |rs| ==> r[i].id == rs[i].id
    ensures forall i :: 0 <= i < |rs| && rs[i].id != id ==> r[i] == rs[i]
    ensures forall i :: 0 <= i < |rs| && rs[i].id == id ==>
      r[i] == UserRecord(id, f.firstName, f.lastName, f.siteName, f.block, apartmentNo, f.phoneNumber)
  {
    seq(|rs|, i requires 0 <= i < |rs| => if rs[i].id == id then Overwrite(rs[i], f, apartmentNo) else rs[i])
  }

  /** `addResident`. `newId` stands for the random id and `apartmentNo` for
      `Number(form.apartmentNo)`, both computed outside the model. */
  function Submit(s: Screen, newId: string, apartmentNo: int): (r: SubmitResult)
    ensures r.outcome == MissingFields <==> !FormComplete(s.form)
    ensures r.outcome == MissingFields ==> r.screen == s
    ensures r.outcome == Saved ==> r.screen.form == EmptyForm && r.screen.editing == None
    ensures r.outcome == Saved && s.editing.None? ==>
      && |r.screen.residents| == |s.residents| + 1
      && r.screen.residents[..|s.residents|] == s.residents
      && r.screen.residents[|s.residents|] ==
           UserRecord(newId, s.form.firstName, s.form.lastName, s.form.siteName, s.form.block, apartmentNo, s.form.phoneNumber)
    ensures r.outcome == Saved && s.editing.Some? ==>
      r.screen.residents == EditRecords(s.residents, s.editing.value.id, s.form, apartmentNo)
  {
    if !FormComplete(s.form) then SubmitResult(s, MissingFields)
    else
      var residents := match s.editing
        case Some(e) => EditRecords(s.residents, e.id, s.form, apartmentNo)
        case None =>
          s.residents + [UserRecord(newId, s.form.firstName, s.form.lastName, s.form.siteName, s.form.block, apartmentNo, s.form.phoneNumber)];
      SubmitResult(Screen(residents, EmptyForm, None), Saved)
  }

  /** Saving while editing keeps the length, the order and every id; only the
      records carrying the edited id change. */
  lemma SaveEditPreservesIds(s: Screen, newId: string, apartmentNo: int)
    requires s.editing.Some? && FormComplete(s.form)
    ensures var rs := Submit(s, newId, apartmentNo).screen.residents;
      && |rs| == |s.residents|
      && (forall i :: 0 <= i < |rs| ==> rs[i].id == s.residents[i].id)
      && (forall i :: 0 <= i < |rs| && s.residents[i].id != s.editing.value.id ==> rs[i] == s.residents[i])
  {
  }

  /** `editResident`: load a record into the form and enter editing mode. */
  function StartEdit(s: Screen, rec: UserRecord): (r: Screen)
    ensures r.residents == s.residents
    ensures r.editing == Some(rec)
    ensures && r.form.firstName == rec.firstName && r.form.lastName == rec.lastName
            && r.form.siteName == rec.siteName && r.form.block == rec.block
            && r.form.phoneNumber == rec.phoneNumber
    ensures r.form.apartmentNo == Text.IntToString(rec.apartmentNo) && r.form.apartmentNo != ""
  {
    Screen(s.residents,
      Form(rec.firstName, rec.lastName, rec.siteName, rec.block, Text.IntToString(rec.apartmentNo), rec.phoneNumber),
      Some(rec))
  }

  /** The apartment number loaded into the form reads back, digit by digit, as
      the record's (non-negative) number: what `Number(apartmentNo)` yields. */
  lemma ApartmentTextReadsBack(s: Screen, rec: UserRecord)
    requires rec.apartmentNo >= 0
    ensures var t := StartEdit(s, rec).form.apartmentNo;
      && (forall i :: 0 <= i < |t| ==> Text.IsDigit(t[i]))
      && Text.DigitsValue(t) == rec.apartmentNo
  {
    Text.NatToStringRoundTrip(rec.apartmentNo);
  }

  /** Loading a record and saving it unchanged leaves the list as it was, when
      no other record shares its id. The `Number(apartmentNo)` argument is the
      record's own number, which `ApartmentTextReadsBack` shows the loaded
      text denotes. */
  lemma EditRoundTrip(s: Screen, rec: UserRecord, newId: string)
    requires forall i :: 0 <= i < |s.residents| && s.residents[i].id == rec.id ==> s.residents[i] == rec
    requires !Text.Blank(rec.firstName) && !Text.Blank(rec.lastName)
    requires !Text.Blank(rec.block) && !Text.Blank(rec.phoneNumber)
    ensures Submit(StartEdit(s, rec), newId, rec.apartmentNo).screen.residents == s.residents
  {
    var e := StartEdit(s, rec);
    assert FormComplete(e.form);
    var rs := EditRecords(s.residents, rec.id, e.form, rec.apartmentNo);
    assert Submit(e, newId, rec.apartmentNo).screen.residents == rs;
    forall i | 0 <= i < |rs| ensures rs[i] == s.residents[i] {
      if s.residents[i].id == rec.id {
        assert rs[i] == UserRecord(rec.id, rec.firstName, rec.lastName, rec.siteName, rec.block, rec.apartmentNo, rec.phoneNumber);
      }
    }
  }

  /** `deleteResident`: after "Evet", drop every record with the id. */
  function Delete(s: Screen, id: string, choice: Choice): (r: Screen)
    ensures r.form == s.form && r.editing == s.editing
    ensures choice.Cancel? ==> r == s
    ensures choice.Confirm? ==>
      && (forall i :: 0 <= i < |r.residents| ==> r.residents[i].id != id && r.residents[i] in s.residents)
      && (forall i :: 0 <= i < |s.residents| && s.residents[i].id != id ==> s.residents[i] in r.residents)
  {
    match choice
    case Cancel => s
    case Confirm => s.(residents := Seqs.Filter((u: UserRecord) => u.id != id, s.residents))
  }

  /** Deleting keeps the surviving records in their original order: deleting
      from a concatenation deletes from each part. */
  lemma DeleteKeepsOrder(a: seq<UserRecord>, b: seq<UserRecord>, id: string, f: Form, editing: Option<UserRecord>)
    ensures Delete(Screen(a + b, f, editing), id, Confirm).residents
         == Delete(Screen(a, f, editing), id, Confirm).residents + Delete(Screen(b, f, editing), id, Confirm).residents
  {
    Seqs.FilterConcat((u: UserRecord) => u.id != id, a, b);
  }

  /** A whitespace-only apartment number passes the check, as it is the one
      required field that is not trimmed. */
  lemma BlankApartmentAccepted(f: Form)
    requires !Text.Blank(f.firstName) && !Text.Blank(f.lastName)
    requires !Text.Blank(f.block) && !Text.Blank(f.phoneNumber)
    requires f.apartmentNo != "" && Text.Blank(f.apartmentNo)
    ensures FormComplete(f) && Text.Trim(f.apartmentNo) == ""
  {
    Text.TrimEmptyIffBlank(f.apartmentNo);
  }
}
