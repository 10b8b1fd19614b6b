/** The treatment editor of the "Mes traitements" screen: a list of
    treatments, each with its medications, edited by id. Every handler
    builds a new list from the previous one; `Screen` holds the state the
    screen keeps beside the list. The ids `uuid.v4()` would produce are
    parameters. */
module Traitements {
  import Lists

  datatype Medicament = Medicament(id: string, nom: string, moment: seq<string>)

  datatype Traitement = Traitement(id: string, description: string, medicaments: seq<Medicament>, enEdition: bool)

  /** The chips a medication's intake moments are chosen from. */
  const MomentChips: seq<string> := ["Matin", "Midi", "Soir"]

  /** A `[champ]: valeur` update of a treatment, one case per field there
      is to edit. */
  datatype TraitementEdit =
    | SetDescription(description: string)
    | SetEnEdition(enEdition: bool)
    | SetMedicaments(medicaments: seq<Medicament>)

  /** A `[champ]: valeur` update of a medication. */
  datatype MedicamentEdit = SetNom(nom: string) | SetMoment(moment: seq<string>)

  /** The state of the screen: the list and the general medical information. */
  datatype Screen = Screen(traitements: seq<Traitement>, typeDiabete: string, utiliseInsuline: bool, infosEnEdition: bool)

  /** The state the screen starts in. */
  const Initial: Screen := Screen([], "Type 1", false, false)

  function TraitementId(t: Traitement): string { t.id }
  function MedicamentId(m: Medicament): string { m.id }

  /** Treatment ids are unique, and so are medication ids within each treatment. */
  ghost predicate WellFormed(ts: seq<Traitement>) {
    && Lists.UniqueBy(ts, TraitementId)
    && forall i :: 0 <= i < |ts| ==> Lists.UniqueBy(ts[i].medicaments, MedicamentId)
  }

  /** `prev.map(t => t.id === id ? f(t) : t)`. */
  function UpdateTraitement(ts: seq<Traitement>, id: string, f: Traitement -> Traitement): (r: seq<Traitement>)
    ensures |r| == |ts|
    ensures forall i :: 0 <= i < |ts| ==> r[i] == if ts[i].id == id then f(ts[i]) else ts[i]
  {
    Lists.Map(ts, (t: Traitement) => if t.id == id then f(t) else t)
  }

  // ----- ajouterTraitement -----

  function NouveauTraitement(newId: string): Traitement {
    Traitement(newId, "", [], false)
  }

  /** Appends an empty treatment, not in edit mode, with the fresh id. */
  function AjouterTraitement(ts: seq<Traitement>, newId: string): (r: seq<Traitement>)
    ensures |r| == |ts| + 1 && r[..|ts|] == ts
    ensures r[|ts|].id == newId && r[|ts|].description == "" && r[|ts|].medicaments == [] && !r[|ts|].enEdition
  {
    ts + [NouveauTraitement(newId)]
  }

  /** With an id no treatment has, adding a treatment keeps ids unique. */
  lemma AjouterTraitementWellFormed(ts: seq<Traitement>, newId: string)
    requires WellFormed(ts)
    requires forall i :: 0 <= i < |ts| ==> ts[i].id != newId
    ensures WellFormed(AjouterTraitement(ts, newId))
  {
    var r := AjouterTraitement(ts, newId);
    assert forall i :: 0 <= i < |ts| ==> r[i] == ts[i];
  }

  // ----- toggleEdition -----

  function BasculerEdition(t: Traitement): Traitement {
    t.(enEdition := !t.enEdition)
  }

  /** Flips the edit mode of the treatments with that id; every other
      field and every other treatment stays as it was. */
  function ToggleEdition(ts: seq<Traitement>, id: string): (r: seq<Traitement>)
    ensures |r| == |ts|
    ensures forall i :: 0 <= i < |ts| ==>
      && r[i].id == ts[i].id && r[i].description == ts[i].description
      && r[i].medicaments == ts[i].medicaments
      && (r[i].enEdition <==> (ts[i].enEdition != (ts[i].id == id)))
  {
    UpdateTraitement(ts, id, BasculerEdition)
  }

  /** Toggling twice restores the list. */
  lemma ToggleEditionInvolution(ts: seq<Traitement>, id: string)
    ensures ToggleEdition(ToggleEdition(ts, id), id) == ts
  {
    var r := ToggleEdition(ToggleEdition(ts, id), id);
    assert forall i :: 0 <= i < |ts| ==> r[i] == ts[i];
  }

  // ----- modifierTraitement -----

  /** `{ ...t, [champ]: valeur }`. */
  function ApplyTraitementEdit(t: Traitement, edit: TraitementEdit): (r: Traitement)
    ensures r.id == t.id
    ensures r.description == (if edit.SetDescription? then edit.description else t.description)
    ensures r.enEdition == (if edit.SetEnEdition? then edit.enEdition else t.enEdition)
    ensures r.medicaments == (if edit.SetMedicaments? then edit.medicaments else t.medicaments)
  {
    match edit
    case SetDescription(d) => t.(description := d)
    case SetEnEdition(b) => t.(enEdition := b)
    case SetMedicaments(ms) => t.(medicaments := ms)
  }

  /** Changes the named field of the treatments with that id only; the
      length and every id are kept. */
  function ModifierTraitement(ts: seq<Traitement>, id: string, edit: TraitementEdit): (r: seq<Traitement>)
    ensures |r| == |ts|
    ensures forall i :: 0 <= i < |ts| ==> r[i].id == ts[i].id
    ensures forall i :: 0 <= i < |ts| && ts[i].id != id ==> r[i] == ts[i]
    ensures forall i :: 0 <= i < |ts| && ts[i].id == id ==> r[i] == ApplyTraitementEdit(ts[i], edit)
  {
    UpdateTraitement(ts, id, (t: Traitement) => ApplyTraitementEdit(t, edit))
  }

  // ----- ajouterMedicament -----

  function AvecNouveauMedicament(t: Traitement, newId: string): Traitement {
    t.(medicaments := t.medicaments + [Medicament(newId, "", [])])
  }

  /** Appends an empty medication to the treatments with that id; the outer
      length and every other treatment are unchanged. */
  function AjouterMedicament(ts: seq<Traitement>, traitementId: string, newId: string): (r: seq<Traitement>)
    ensures |r| == |ts|
    ensures forall i :: 0 <= i < |ts| && ts[i].id != traitementId ==> r[i] == ts[i]
    ensures forall i :: 0 <= i < |ts| && ts[i].id == traitementId ==>
      && r[i].id == ts[i].id && r[i].description == ts[i].description && r[i].enEdition == ts[i].enEdition
      && r[i].medicaments == ts[i].medicaments + [Medicament(newId, "", [])]
  {
    UpdateTraitement(ts, traitementId, (t: Traitement) => AvecNouveauMedicament(t, newId))
  }

  /** With a medication id unused in the target treatment, adding a
      medication keeps the list well formed. */
  lemma AjouterMedicamentWellFormed(ts: seq<Traitement>, traitementId: string, newId: string)
    requires WellFormed(ts)
    requires forall i, k :: 0 <= i < |ts| && ts[i].id == traitementId && 0 <= k < |ts[i].medicaments| ==>
      ts[i].medicaments[k].id != newId
    ensures WellFormed(AjouterMedicament(ts, traitementId, newId))
  {
    var r := AjouterMedicament(ts, traitementId, newId);
    forall i | 0 <= i < |r| ensures Lists.UniqueBy(r[i].medicaments, MedicamentId) {
      if ts[i].id == traitementId {
        var ms := r[i].medicaments;
        assert forall k :: 0 <= k < |ts[i].medicaments| ==> ms[k] == ts[i].medicaments[k];
      }
    }
  }

  // ----- modifierMedicament -----

  /** `{ ...m, [champ]: valeur }`. */
  function ApplyMedicamentEdit(m: Medicament, edit: MedicamentEdit): (r: Medicament)
    ensures r.id == m.id
    ensures r.nom == (if edit.SetNom? then edit.nom else m.nom)
    ensures r.moment == (if edit.SetMoment? then edit.moment else m.moment)
  {
    match edit
    case SetNom(n) => m.(nom := n)
    case SetMoment(ms) => m.(moment := ms)
  }

  function EditMedicaments(ms: seq<Medicament>, medicamentId: string, edit: MedicamentEdit): (r: seq<Medicament>)
    ensures |r| == |ms|
    ensures forall k :: 0 <= k < |ms| ==>
      r[k] == if ms[k].id == medicamentId then ApplyMedicamentEdit(ms[k], edit) else ms[k]
  {
    Lists.Map(ms, (m: Medicament) => if m.id == medicamentId then ApplyMedicamentEdit(m, edit) else m)
  }

  /** Changes the named field of the matching medication inside the
      matching treatment; every other medication and treatment, and every
      other field, is unchanged. */
  function ModifierMedicament(ts: seq<Traitement>, traitementId: string, medicamentId: string, edit: MedicamentEdit): (r: seq<Traitement>)
    ensures |r| == |ts|
    ensures forall i :: 0 <= i < |ts| && ts[i].id != traitementId ==> r[i] == ts[i]
    ensures forall i :: 0 <= i < |ts| && ts[i].id == traitementId ==>
      && r[i].id == ts[i].id && r[i].description == ts[i].description && r[i].enEdition == ts[i].enEdition
      && |r[i].medicaments| == |ts[i].medicaments|
      && forall k :: 0 <= k < |ts[i].medicaments| ==>
        r[i].medicaments[k] ==
          if ts[i].medicaments[k].id == medicamentId
          then ApplyMedicamentEdit(ts[i].medicaments[k], edit)
          else ts[i].medicaments[k]
  {
    UpdateTraitement(ts, traitementId,
      (t: Traitement) => t.(medicaments := EditMedicaments(t.medicaments, medicamentId, edit)))
  }

  /** Editing a medication keeps the list well formed. */
  lemma ModifierMedicamentWellFormed(ts: seq<Traitement>, traitementId: string, medicamentId: string, edit: MedicamentEdit)
    requires WellFormed(ts)
    ensures WellFormed(ModifierMedicament(ts, traitementId, medicamentId, edit))
  {
    var r := ModifierMedicament(ts, traitementId, medicamentId, edit);
    forall i | 0 <= i < |r| ensures Lists.UniqueBy(r[i].medicaments, MedicamentId) {
      assert forall k :: 0 <= k < |r[i].medicaments| ==> r[i].medicaments[k].id == ts[i].medicaments[k].id;
    }
  }

  // ----- supprimerMedicament -----

  function SansMedicament(ms: seq<Medicament>, medicamentId: string): (r: seq<Medicament>)
    ensures Lists.IsSublist(r, ms)
    ensures forall k :: 0 <= k < |r| ==> r[k].id != medicamentId && r[k] in ms
    ensures forall k :: 0 <= k < |ms| && ms[k].id != medicamentId ==> ms[k] in r
    ensures forall k :: 0 <= k < |ms| && ms[k].id != medicamentId ==> multiset(r)[ms[k]] == multiset(ms)[ms[k]]
  {
    Lists.Filter(ms, (m: Medicament) => m.id != medicamentId)
  }

  /** Removes the medications with that id from the target treatment,
      keeping the others in order, and touches no other treatment. */
  function SupprimerMedicament(ts: seq<Traitement>, traitementId: string, medicamentId: string): (r: seq<Traitement>)
    ensures |r| == |ts|
    ensures forall i :: 0 <= i < |ts| && ts[i].id != traitementId ==> r[i] == ts[i]
    ensures forall i :: 0 <= i < |ts| && ts[i].id == traitementId ==>
      && r[i].id == ts[i].id && r[i].description == ts[i].description && r[i].enEdition == ts[i].enEdition
      && r[i].medicaments == SansMedicament(ts[i].medicaments, medicamentId)
  {
    UpdateTraitement(ts, traitementId,
      (t: Traitement) => t.(medicaments := SansMedicament(t.medicaments, medicamentId)))
  }

  /** Removing a medication keeps the list well formed. */
  lemma SupprimerMedicamentWellFormed(ts: seq<Traitement>, traitementId: string, medicamentId: string)
    requires WellFormed(ts)
    ensures WellFormed(SupprimerMedicament(ts, traitementId, medicamentId))
  {
    var r := SupprimerMedicament(ts, traitementId, medicamentId);
    forall i | 0 <= i < |r| ensures Lists.UniqueBy(r[i].medicaments, MedicamentId) {
      if ts[i].id == traitementId {
        Lists.FilterUniqueBy(ts[i].medicaments, (m: Medicament) => m.id != medicamentId, MedicamentId);
      }
    }
  }

  // ----- supprimerTraitement -----

  /** On confirmation, removes the treatments with that id and keeps the
      others in order; on cancel, the list is unchanged. */
  function SupprimerTraitement(ts: seq<Traitement>, id: string, confirmed: bool): (r: seq<Traitement>)
    ensures !confirmed ==> r == ts
    ensures confirmed ==> Lists.IsSublist(r, ts)
    ensures confirmed ==> forall i :: 0 <= i < |r| ==> r[i].id != id
    ensures confirmed ==> forall i :: 0 <= i < |ts| && ts[i].id != id ==> ts[i] in r
    ensures confirmed ==> forall i :: 0 <= i < |ts| && ts[i].id != id ==> multiset(r)[ts[i]] == multiset(ts)[ts[i]]
  {
    if confirmed then Lists.Filter(ts, (t: Traitement) => t.id != id) else ts
  }

  /** Removing a treatment keeps the list well formed. */
  lemma SupprimerTraitementWellFormed(ts: seq<Traitement>, id: string, confirmed: bool)
    requires WellFormed(ts)
    ensures WellFormed(SupprimerTraitement(ts, id, confirmed))
  {
    if confirmed {
      var p := (t: Traitement) => t.id != id;
      Lists.FilterUniqueBy(ts, p, TraitementId);
      var r := Lists.Filter(ts, p);
      forall i | 0 <= i < |r| ensures Lists.UniqueBy(r[i].medicaments, MedicamentId) {
        assert r[i] in ts;
      }
    }
  }

  // ----- the moment chips -----

  /** The new `moment` list when the chip `moment` is pressed: drop it when
      it is checked, append it otherwise. */
  function ToggleMoment(ms: seq<string>, moment: string): (r: seq<string>)
    ensures moment in r <==> moment !in ms
    ensures forall x :: x != moment ==> (x in r <==> x in ms)
    ensures moment in ms ==> Lists.IsSublist(r, ms)
    ensures moment in ms ==> forall k :: 0 <= k < |ms| && ms[k] != moment ==> multiset(r)[ms[k]] == multiset(ms)[ms[k]]
    ensures moment !in ms ==> r == ms + [moment]
  {
    if moment in ms then Lists.Filter(ms, (m: string) => m != moment) else ms + [moment]
  }

  /** Pressing the chip `moment` of medication `m`, as it was rendered, in
      treatment `traitementId`: every medication with `m`'s id there gets
      `m`'s moments with that one negated and the others kept; nothing else
      changes. */
  function PresserMoment(ts: seq<Traitement>, traitementId: string, m: Medicament, moment: string): (r: seq<Traitement>)
    ensures |r| == |ts|
    ensures forall i :: 0 <= i < |ts| && ts[i].id != traitementId ==> r[i] == ts[i]
    ensures forall i :: 0 <= i < |ts| && ts[i].id == traitementId ==>
      && r[i].id == ts[i].id && r[i].description == ts[i].description && r[i].enEdition == ts[i].enEdition
      && |r[i].medicaments| == |ts[i].medicaments|
    ensures forall i, k :: 0 <= i < |ts| && ts[i].id == traitementId && 0 <= k < |ts[i].medicaments| ==>
      && r[i].medicaments[k].id == ts[i].medicaments[k].id
      && r[i].medicaments[k].nom == ts[i].medicaments[k].nom
      && (ts[i].medicaments[k].id != m.id ==> r[i].medicaments[k].moment == ts[i].medicaments[k].moment)
    ensures forall i, k :: 0 <= i < |ts| && ts[i].id == traitementId && 0 <= k < |ts[i].medicaments| && ts[i].medicaments[k].id == m.id ==>
      && (moment in r[i].medicaments[k].moment <==> moment !in m.moment)
      && forall x :: x != moment ==> (x in r[i].medicaments[k].moment <==> x in m.moment)
  {
    ModifierMedicament(ts, traitementId, m.id, SetMoment(ToggleMoment(m.moment, moment)))
  }

  /** A `moment` list that holds each chip at most once and nothing else. */
  predicate ChipsOnly(ms: seq<string>) {
    Lists.NoDuplicates(ms) && forall k :: 0 <= k < |ms| ==> ms[k] in MomentChips
  }

  /** Pressing one of the chips keeps a `moment` list made of chips, each at
      most once. */
  lemma ToggleMomentKeepsChips(ms: seq<string>, moment: string)
    requires ChipsOnly(ms) && moment in MomentChips
    ensures ChipsOnly(ToggleMoment(ms, moment))
  {
    if moment in ms {
      var same := (m: string) => m;
      assert Lists.UniqueBy(ms, same);
      Lists.FilterUniqueBy(ms, (m: string) => m != moment, same);
    }
  }

  // ----- the general information card -----

  /** `toggleInfosEdition`. */
  function ToggleInfosEdition(s: Screen): (r: Screen)
    ensures r.infosEnEdition == !s.infosEnEdition
    ensures r.traitements == s.traitements && r.typeDiabete == s.typeDiabete && r.utiliseInsuline == s.utiliseInsuline
  {
    s.(infosEnEdition := !s.infosEnEdition)
  }

  /** The diabetes-type button: 'Type 1' becomes 'Type 2', anything else 'Type 1'. */
  function BasculerTypeDiabete(s: Screen): (r: Screen)
    ensures r.typeDiabete == "Type 1" || r.typeDiabete == "Type 2"
    ensures r.typeDiabete != s.typeDiabete || s.typeDiabete !in {"Type 1", "Type 2"}
    ensures r.traitements == s.traitements && r.utiliseInsuline == s.utiliseInsuline && r.infosEnEdition == s.infosEnEdition
  {
    s.(typeDiabete := if s.typeDiabete == "Type 1" then "Type 2" else "Type 1")
  }

  /** The screen starts with no treatment, which is well formed, and with a
      diabetes type the button toggles between. */
  lemma InitialScreen()
    ensures WellFormed(Initial.traitements)
    ensures BasculerTypeDiabete(BasculerTypeDiabete(Initial)) == Initial
  {
    BasculerTypeDiabeteTwice(Initial);
  }

  /** Pressing the diabetes-type button twice from either type restores it. */
  lemma BasculerTypeDiabeteTwice(s: Screen)
    requires s.typeDiabete == "Type 1" || s.typeDiabete == "Type 2"
    ensures BasculerTypeDiabete(BasculerTypeDiabete(s)) == s
  {
  }

  /** The insulin switch (`setUtiliseInsuline`). */
  function SetUtiliseInsuline(s: Screen, value: bool): (r: Screen)
    ensures r.utiliseInsuline == value
    ensures r.traitements == s.traitements && r.typeDiabete == s.typeDiabete && r.infosEnEdition == s.infosEnEdition
  {
    s.(utiliseInsuline := value)
  }
}
