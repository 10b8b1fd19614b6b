/** The doctor screen: the message to the doctor and the list of
    treatments, with their status transitions, deletion, and the add/edit
    form. A treatment is a JavaScript object whose keys may be missing, so it
    is a map from keys to strings; `{ ...a, ...b }` is the map union `a + b`.
    Confirmation dialogs are a boolean, `Date.now()` and
    `new Date().toISOString()` are parameters. */
module Medecin {
  import opened Host
  import Lists
  import Text

  datatype Key = Id | Name | Dosage | Frequency | StartDate | Status | NextDose | Notes

  /** A treatment object; a key outside the map is `undefined`. */
  type Record = map<Key, string>

  /** `record[key]`. */
  function Get(r: Record, k: Key): Option<string> {
    if k in r then Some(r[k]) else None
  }

  /** A value JavaScript counts as true: present and not the empty string. */
  predicate Truthy(v: Option<string>) {
    v.Some? && v.value != ""
  }

  const InitialTreatments: seq<Record> := [
    map[Id := "1", Name := "Metformine", Dosage := "500mg", Frequency := "2 fois par jour",
        StartDate := "2024-01-01", Status := "active", NextDose := "2024-03-20 20:00",
        Notes := "À prendre pendant les repas"],
    map[Id := "2", Name := "Insuline", Dosage := "10 unités", Frequency := "Avant chaque repas",
        StartDate := "2024-01-01", Status := "active", NextDose := "2024-03-20 12:00",
        Notes := "À ajuster selon la glycémie"]
  ]

  /** The blank form: empty name, dosage and frequency, start date now, status active. */
  function BlankForm(nowIso: string): (r: Record)
    ensures r.Keys == {Name, Dosage, Frequency, StartDate, Status}
    ensures r[Name] == "" && r[Dosage] == "" && r[Frequency] == ""
    ensures r[StartDate] == nowIso && r[Status] == "active"
  {
    map[Name := "", Dosage := "", Frequency := "", StartDate := nowIso, Status := "active"]
  }

  // ----- the list operations -----

  /** `treatments.filter(t => t.id !== id)`. */
  function RemoveTreatment(ts: seq<Record>, id: Option<string>): (r: seq<Record>)
    ensures Lists.IsSublist(r, ts)
    ensures forall i :: 0 <= i < |r| ==> Get(r[i], Id) != id && r[i] in ts
    ensures forall i :: 0 <= i < |ts| && Get(ts[i], Id) != id ==> ts[i] in r
    ensures forall i :: 0 <= i < |ts| && Get(ts[i], Id) != id ==> multiset(r)[ts[i]] == multiset(ts)[ts[i]]
  {
    Lists.Filter(ts, (t: Record) => Get(t, Id) != id)
  }

  /** `treatments.map(t => t.id === id ? { ...t, status } : t)`: the status
      of the matching treatments only; length, order and every other key
      are kept. */
  function SetStatus(ts: seq<Record>, id: Option<string>, status: string): (r: seq<Record>)
    ensures |r| == |ts|
    ensures forall i :: 0 <= i < |ts| && Get(ts[i], Id) != id ==> r[i] == ts[i]
    ensures forall i :: 0 <= i < |ts| && Get(ts[i], Id) == id ==>
      Get(r[i], Status) == Some(status) && forall k :: k != Status ==> Get(r[i], k) == Get(ts[i], k)
  {
    Lists.Map(ts, (t: Record) => if Get(t, Id) == id then t[Status := status] else t)
  }

  /** What saving the form does to the list: in edit mode, merge the form
      into the treatments with the edited id; otherwise append the form with
      a fresh id. */
  function SaveTreatment(ts: seq<Record>, editing: Option<Record>, form: Record, freshId: string): (r: seq<Record>)
    ensures editing.Some? ==> |r| == |ts|
    ensures editing.Some? ==> forall i :: 0 <= i < |ts| ==>
      if Get(ts[i], Id) == Get(editing.value, Id) then
        forall k :: Get(r[i], k) == (if k in form then Some(form[k]) else Get(ts[i], k))
      else r[i] == ts[i]
    ensures editing.None? ==> |r| == |ts| + 1 && r[..|ts|] == ts
    ensures editing.None? ==> Get(r[|ts|], Id) == Some(freshId)
    ensures editing.None? ==> forall k :: k != Id ==> Get(r[|ts|], k) == Get(form, k)
  {
    if editing.Some? then
      var target := Get(editing.value, Id);
      Lists.Map(ts, (t: Record) => if Get(t, Id) == target then t + form else t)
    else
      ts + [form[Id := freshId]]
  }

  // ----- status labels -----

  /** `getStatusColor`. */
  function GetStatusColor(status: Option<string>): (c: string)
    ensures c == "#00C851" <==> status == Some("active")
    ensures c == "#ffbb33" <==> status == Some("paused")
    ensures c == "#ff4444" <==> status == Some("completed")
    ensures c == "#666" <==> status !in {Some("active"), Some("paused"), Some("completed")}
  {
    match status
    case Some("active") => "#00C851"
    case Some("paused") => "#ffbb33"
    case Some("completed") => "#ff4444"
    case _ => "#666"
  }

  /** `getStatusText`. */
  function GetStatusText(status: Option<string>): (t: string)
    ensures t == "En cours" <==> status == Some("active")
    ensures t == "En pause" <==> status == Some("paused")
    ensures t == "Terminé" <==> status == Some("completed")
    ensures t == "" <==> status !in {Some("active"), Some("paused"), Some("completed")}
  {
    match status
    case Some("active") => "En cours"
    case Some("paused") => "En pause"
    case Some("completed") => "Terminé"
    case _ => ""
  }

  // ----- the screen -----

  class MedecinScreen {
    var message: string
    var treatments: seq<Record>
    var showAddModal: bool
    var editingTreatment: Option<Record>
    var newTreatment: Record
    var showDatePicker: bool
    var dateField: Key

    constructor (nowIso: string)
      ensures message == "" && treatments == InitialTreatments
      ensures !showAddModal && editingTreatment == None && newTreatment == BlankForm(nowIso)
      ensures !showDatePicker && dateField == StartDate
    {
      message := "";
      treatments := InitialTreatments;
      showAddModal := false;
      editingTreatment := None;
      newTreatment := BlankForm(nowIso);
      showDatePicker := false;
      dateField := StartDate;
    }

    /** `handleSendMessage`: a blank message is refused and kept; any other
        is sent and cleared. */
    method HandleSendMessage() returns (alerts: seq<Alert>)
      modifies this`message
      ensures Text.IsBlank(old(message)) ==>
        message == old(message) && alerts == [Alert("Erreur", "Veuillez entrer un message")]
      ensures !Text.IsBlank(old(message)) ==>
        message == "" && alerts == [Alert("Message envoyé", "Nous vous répondrons dans les plus brefs délais")]
    {
      Text.TrimEmptyIffBlank(message);
      if Text.Trim(message) == "" {
        return [Alert("Erreur", "Veuillez entrer un message")];
      }
      message := "";
      return [Alert("Message envoyé", "Nous vous répondrons dans les plus brefs délais")];
    }

    /** `handleTreatmentAction(treatment, action)`; `confirmed` is the
        answer to the dialog of the delete, pause and complete actions. */
    method HandleTreatmentAction(treatment: Record, action: string, confirmed: bool)
      modifies this
      ensures message == old(message) && showDatePicker == old(showDatePicker) && dateField == old(dateField)
      ensures action == "edit" ==>
        editingTreatment == Some(treatment) && newTreatment == treatment && showAddModal
        && treatments == old(treatments)
      ensures action != "edit" ==>
        editingTreatment == old(editingTreatment) && newTreatment == old(newTreatment)
        && showAddModal == old(showAddModal)
      ensures action == "delete" && confirmed ==> treatments == RemoveTreatment(old(treatments), Get(treatment, Id))
      ensures action == "pause" && confirmed ==> treatments == SetStatus(old(treatments), Get(treatment, Id), "paused")
      ensures action == "complete" && confirmed ==> treatments == SetStatus(old(treatments), Get(treatment, Id), "completed")
      ensures action != "edit" && (action !in {"delete", "pause", "complete"} || !confirmed) ==>
        treatments == old(treatments)
    {
      if action == "edit" {
        editingTreatment := Some(treatment);
        newTreatment := treatment;
        showAddModal := true;
      } else if action == "delete" {
        if confirmed {
          treatments := RemoveTreatment(treatments, Get(treatment, Id));
        }
      } else if action == "pause" {
        if confirmed {
          treatments := SetStatus(treatments, Get(treatment, Id), "paused");
        }
      } else if action == "complete" {
        if confirmed {
          treatments := SetStatus(treatments, Get(treatment, Id), "completed");
        }
      }
    }

    /** `handleSaveTreatment`: a form without name, dosage or frequency
        changes nothing; otherwise save it, close the modal, leave edit mode
        and reset the form. */
    method HandleSaveTreatment(freshId: string, nowIso: string) returns (alerts: seq<Alert>)
      modifies this
      ensures message == old(message) && showDatePicker == old(showDatePicker) && dateField == old(dateField)
      ensures !(Truthy(Get(old(newTreatment), Name)) && Truthy(Get(old(newTreatment), Dosage))
                && Truthy(Get(old(newTreatment), Frequency))) ==>
        && treatments == old(treatments) && showAddModal == old(showAddModal)
        && editingTreatment == old(editingTreatment) && newTreatment == old(newTreatment)
        && alerts == [Alert("Erreur", "Veuillez remplir tous les champs obligatoires")]
      ensures Truthy(Get(old(newTreatment), Name)) && Truthy(Get(old(newTreatment), Dosage))
              && Truthy(Get(old(newTreatment), Frequency)) ==>
        && treatments == SaveTreatment(old(treatments), old(editingTreatment), old(newTreatment), freshId)
        && !showAddModal && editingTreatment == None && newTreatment == BlankForm(nowIso)
        && alerts == []
    {
      if !Truthy(Get(newTreatment, Name)) || !Truthy(Get(newTreatment, Dosage)) || !Truthy(Get(newTreatment, Frequency)) {
        return [Alert("Erreur", "Veuillez remplir tous les champs obligatoires")];
      }
      treatments := SaveTreatment(treatments, editingTreatment, newTreatment, freshId);
      showAddModal := false;
      editingTreatment := None;
      newTreatment := BlankForm(nowIso);
      return [];
    }

    /** `handleDateChange`: close the picker, and store the chosen date's
        ISO text, if any, under the field being picked. */
    method HandleDateChange(selectedIso: Option<string>)
      modifies this`showDatePicker, this`newTreatment
      ensures !showDatePicker
      ensures newTreatment == if selectedIso.Some? then old(newTreatment)[old(dateField) := selectedIso.value] else old(newTreatment)
    {
      showDatePicker := false;
      if selectedIso.Some? {
        newTreatment := newTreatment[dateField := selectedIso.value];
      }
    }
  }

  /** Editing a treatment and saving it unchanged leaves the list as it was
      when ids are unique. */
  lemma SaveUnchangedEdit(ts: seq<Record>, i: nat, freshId: string)
    requires i < |ts|
    requires forall a, b :: 0 <= a < b < |ts| ==> Get(ts[a], Id) != Get(ts[b], Id)
    ensures SaveTreatment(ts, Some(ts[i]), ts[i], freshId) == ts
  {
    var r := SaveTreatment(ts, Some(ts[i]), ts[i], freshId);
    forall j | 0 <= j < |ts| ensures r[j] == ts[j] {
      if j == i {
        assert ts[i] + ts[i] == ts[i];
      }
    }
  }

  /** The last status set wins: pausing then completing a treatment is
      completing it, and setting the same status twice is setting it once. */
  lemma StatusTransitions(ts: seq<Record>, id: Option<string>, first: string, second: string)
    ensures SetStatus(SetStatus(ts, id, first), id, second) == SetStatus(ts, id, second)
  {
    var once := SetStatus(ts, id, first);
    var twice := SetStatus(once, id, second);
    var direct := SetStatus(ts, id, second);
    forall i | 0 <= i < |ts| ensures twice[i] == direct[i] {
      if Get(ts[i], Id) == id {
        assert Get(once[i], Id) == id;
        assert once[i] == ts[i][Status := first];
        assert ts[i][Status := first][Status := second] == ts[i][Status := second];
      }
    }
  }
}
