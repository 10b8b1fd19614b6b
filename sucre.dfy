/** The glycaemia log: the reading typed in with its note, and the list of
    readings mirrored from the remote store, with add, list and delete.
    Every request's outcome is a parameter; the construction of `Date`
    objects is the host's, and only the branch the screen takes to build
    one is modelled. */
module Sucre {
  import opened Host
  import Lists

  // ----- readings and their dates -----

  /** A `date` field as the store's JSON gives it: missing, `null`, a number,
      a string, or an object with or without a `_seconds` number. */
  datatype RawDate =
    | Undefined
    | Null
    | Number(n: int)
    | Text(s: string)
    | Object(seconds: Option<int>)

  /** What the screen hands to `new Date(...)`. */
  datatype DateArg = EpochMillis(ms: int) | AsIs(raw: RawDate)

  /** A reading as the screen keeps it; `D` is the type of its date. */
  datatype Reading<D> = Reading(id: string, value: real, note: string, date: D)

  /** `item.date && item.date._seconds ? new Date(item.date._seconds * 1000)
      : new Date(item.date)`: only an object whose `_seconds` is a non-zero
      number is read as epoch seconds; everything else, `_seconds == 0`
      included, goes to `new Date` unchanged. */
  function NormalizeDate(raw: RawDate): (d: DateArg)
    ensures raw.Object? && raw.seconds.Some? && raw.seconds.value != 0 ==> d == EpochMillis(raw.seconds.value * 1000)
    ensures !(raw.Object? && raw.seconds.Some? && raw.seconds.value != 0) ==> d == AsIs(raw)
  {
    match raw
    case Object(Some(sec)) => if sec != 0 then EpochMillis(sec * 1000) else AsIs(raw)
    case _ => AsIs(raw)
  }

  /** `{ ...item, date: ... }`. */
  function NormalizeReading(item: Reading<RawDate>): (r: Reading<DateArg>)
    ensures r.id == item.id && r.value == item.value && r.note == item.note
    ensures r.date == NormalizeDate(item.date)
  {
    Reading(item.id, item.value, item.note, NormalizeDate(item.date))
  }

  /** The body of the list request. `fetchEntries` never looks at `ok`: it
      maps whatever decodes, and a body that is not an array makes `map`
      throw. */
  datatype ListBody = Items(items: seq<Reading<RawDate>>) | NotAnArray

  /** The list `fetchEntries` stores for a response, or `None` when it
      keeps the previous one: same readings, same order, only `date`
      rewritten. */
  function Listing(response: Response<ListBody>): (r: Option<seq<Reading<DateArg>>>)
    ensures r.Some? <==> !response.Exception? && response.body.Items?
    ensures r.Some? ==> |r.value| == |response.body.items|
    ensures r.Some? ==> forall i :: 0 <= i < |r.value| ==>
      var item := response.body.items[i];
      && r.value[i].id == item.id && r.value[i].value == item.value && r.value[i].note == item.note
      && r.value[i].date == NormalizeDate(item.date)
  {
    if response.Exception? || response.body.NotAnArray? then None
    else Some(Lists.Map(response.body.items, NormalizeReading))
  }

  /** A store answer listing `1700000000` as epoch seconds gives a reading at
      `1700000000000` ms; an unparseable string and a zero `_seconds` go to
      `new Date` as they are, and the reading is kept. */
  lemma ListingExamples(id: string, value: real, note: string)
    ensures Listing(Ok(Items([Reading(id, value, note, Object(Some(1700000000)))]))) ==
      Some([Reading(id, value, note, EpochMillis(1700000000000))])
    ensures Listing(Ok(Items([Reading(id, value, note, Text("pas une date"))]))) ==
      Some([Reading(id, value, note, AsIs(Text("pas une date")))])
    ensures Listing(NotOk(Items([Reading(id, value, note, Object(Some(0)))]))) ==
      Some([Reading(id, value, note, AsIs(Object(Some(0))))])
  {
    var a := Listing(Ok(Items([Reading(id, value, note, Object(Some(1700000000)))]))).value;
    assert |a| == 1 && a[0] == Reading(id, value, note, EpochMillis(1700000000000));
    assert a == [Reading(id, value, note, EpochMillis(1700000000000))];
    var b := Listing(Ok(Items([Reading(id, value, note, Text("pas une date"))]))).value;
    assert |b| == 1 && b[0] == Reading(id, value, note, AsIs(Text("pas une date")));
    assert b == [Reading(id, value, note, AsIs(Text("pas une date")))];
    var c := Listing(NotOk(Items([Reading(id, value, note, Object(Some(0)))]))).value;
    assert |c| == 1 && c[0] == Reading(id, value, note, AsIs(Object(Some(0))));
    assert c == [Reading(id, value, note, AsIs(Object(Some(0))))];
  }

  // ----- how a reading is shown -----

  const HypoColor := "#ff4444"
  const HyperColor := "#ffbb33"
  const NormalColor := "#00C851"

  /** `getStatusColor`: below 70 mg/dL is hypoglycaemia, above 180 is
      hyperglycaemia, and 70 to 180 inclusive is normal. */
  function GetStatusColor(value: real): (c: string)
    ensures c == HypoColor <==> value < 70.0
    ensures c == HyperColor <==> value > 180.0
    ensures c == NormalColor <==> 70.0 <= value <= 180.0
  {
    if value < 70.0 then HypoColor
    else if value > 180.0 then HyperColor
    else NormalColor
  }

  lemma StatusColorBoundaries()
    ensures GetStatusColor(69.0) == HypoColor
    ensures GetStatusColor(70.0) == NormalColor
    ensures GetStatusColor(180.0) == NormalColor
    ensures GetStatusColor(181.0) == HyperColor
  {
  }

  /** What `renderEntry` shows as the date. */
  datatype DateText = DateInvalide | LocaleString(time: int)

  /** `'Date invalide'` unless the host's `Date` built from the reading's
      date has a time value; `hostTime` is what `getTime()` returns, `None`
      standing for `NaN`. */
  function DisplayedDate(date: DateArg, hostTime: DateArg -> Option<int>): (t: DateText)
    ensures t == DateInvalide <==> hostTime(date).None?
    ensures t.LocaleString? ==> hostTime(date) == Some(t.time)
  {
    match hostTime(date)
    case None => DateInvalide
    case Some(ms) => LocaleString(ms)
  }

  // ----- the comma fix -----

  /** `sucre.replace(',', '.')`: a string pattern replaces its first
      occurrence only, so the first comma becomes a period and every other
      character stays where it was. */
  function ReplaceFirstComma(s: string): (r: string)
    ensures |r| == |s|
    ensures forall k :: 0 <= k < |s| && s[k] != ',' ==> r[k] == s[k]
    ensures forall k :: 0 <= k < |s| && s[k] == ',' ==> r[k] == if ',' in s[..k] then ',' else '.'
  {
    if s == [] then []
    else if s[0] == ',' then
      assert forall k :: 0 < k <= |s| ==> s[..k][0] == ',';
      "." + s[1..]
    else
      var rest := ReplaceFirstComma(s[1..]);
      assert forall k :: 0 < k <= |s| ==> s[..k] == [s[0]] + s[1..][..k - 1];
      [s[0]] + rest
  }

  /** Without a comma the value is sent as typed. */
  lemma ReplaceFirstCommaNoComma(s: string)
    requires ',' !in s
    ensures ReplaceFirstComma(s) == s
  {
    var r := ReplaceFirstComma(s);
    assert forall k :: 0 <= k < |s| ==> r[k] == s[k];
  }

  /** With a first comma at index `k`, exactly that character changes. */
  lemma ReplaceFirstCommaAt(s: string, k: nat)
    requires k < |s| && s[k] == ',' && ',' !in s[..k]
    ensures ReplaceFirstComma(s) == s[..k] + "." + s[k + 1..]
  {
    var r := ReplaceFirstComma(s);
    var t := s[..k] + "." + s[k + 1..];
    assert |t| == |s|;
    forall m | 0 <= m < |s| ensures r[m] == t[m] {
      if m < k {
        assert t[m] == s[..k][m] == s[m];
      } else if m == k {
        assert t[m] == '.';
      } else {
        assert t[m] == s[k + 1..][m - k - 1] == s[m];
        if s[m] == ',' {
          assert s[..m][k] == ',';
        }
      }
    }
  }

  lemma ReplaceFirstCommaExamples()
    ensures ReplaceFirstComma("1,2") == "1.2"
    ensures ReplaceFirstComma("1,2,3") == "1.2,3"
  {
    ReplaceFirstCommaAt("1,2", 1);
    ReplaceFirstCommaAt("1,2,3", 1);
  }

  // ----- the screen -----

  /** The body of an add response: its `value`, and its `error` ("" when absent). */
  datatype AddBody = AddBody(value: string, error: string)

  /** The body `handleConfirm` posts. */
  datatype AddRequest = AddRequest(value: string, note: string)

  const EmptyValueAlert := Alert("Erreur", "Veuillez entrer un taux de glycémie.")
  const ListFailedAlert := Alert("Erreur", "Impossible de récupérer les données")

  class SucreScreen {
    var sucre: string
    var note: string
    var entries: seq<Reading<DateArg>>

    constructor ()
      ensures sucre == "" && note == "" && entries == []
    {
      sucre := "";
      note := "";
      entries := [];
    }

    /** `fetchEntries`: replace the list with the store's, or keep it and
        report the failure. */
    method FetchEntries(response: Response<ListBody>) returns (alerts: seq<Alert>)
      modifies this
      ensures sucre == old(sucre) && note == old(note)
      ensures Listing(response).Some? ==> entries == Listing(response).value && alerts == []
      ensures Listing(response).None? ==> entries == old(entries) && alerts == [ListFailedAlert]
    {
      var listing := Listing(response);
      if listing.Some? {
        entries := listing.value;
        alerts := [];
      } else {
        alerts := [ListFailedAlert];
      }
    }

    /** `handleConfirm`: nothing is sent for an empty value; otherwise the
        value is sent with its first comma made a period, and only an `ok`
        answer clears both fields and refreshes the list. */
    method HandleConfirm(add: Response<AddBody>, refresh: Response<ListBody>)
      returns (request: Option<AddRequest>, alerts: seq<Alert>)
      modifies this
      ensures old(sucre) == "" ==>
        request == None && alerts == [EmptyValueAlert]
        && sucre == old(sucre) && note == old(note) && entries == old(entries)
      ensures old(sucre) != "" ==> request == Some(AddRequest(ReplaceFirstComma(old(sucre)), old(note)))
      ensures old(sucre) != "" && add.Ok? ==>
        && sucre == "" && note == ""
        && entries == (if Listing(refresh).Some? then Listing(refresh).value else old(entries))
        && alerts == [Alert("Succès", "Taux de glycémie enregistré : " + add.body.value + " mg/dL")]
                     + (if Listing(refresh).Some? then [] else [ListFailedAlert])
      ensures old(sucre) != "" && !add.Ok? ==>
        && sucre == old(sucre) && note == old(note) && entries == old(entries)
        && alerts == [Alert("Erreur",
             if add.Exception? then "Impossible de sauvegarder la donnée"
             else if add.body.error != "" then add.body.error else "Erreur serveur")]
    {
      if sucre == "" {
        return None, [EmptyValueAlert];
      }
      request := Some(AddRequest(ReplaceFirstComma(sucre), note));
      match add
      case Ok(body) =>
        alerts := [Alert("Succès", "Taux de glycémie enregistré : " + body.value + " mg/dL")];
        sucre := "";
        note := "";
        var more := FetchEntries(refresh);
        alerts := alerts + more;
      case NotOk(body) =>
        alerts := [Alert("Erreur", if body.error != "" then body.error else "Erreur serveur")];
      case Exception =>
        alerts := [Alert("Erreur", "Impossible de sauvegarder la donnée")];
    }

    /** `deleteEntry(id)`: nothing is sent unless confirmed; the list is
        refreshed only after an `ok` answer and otherwise kept. */
    method DeleteEntry(id: string, confirmed: bool, remove: Response<()>, refresh: Response<ListBody>)
      returns (request: Option<string>, alerts: seq<Alert>)
      modifies this
      ensures sucre == old(sucre) && note == old(note)
      ensures !confirmed ==> request == None && alerts == [] && entries == old(entries)
      ensures confirmed ==> request == Some(id)
      ensures confirmed && remove.Ok? ==>
        && entries == (if Listing(refresh).Some? then Listing(refresh).value else old(entries))
        && alerts == (if Listing(refresh).Some? then [] else [ListFailedAlert])
      ensures confirmed && !remove.Ok? ==>
        entries == old(entries)
        && alerts == [Alert("Erreur", if remove.NotOk? then "Impossible de supprimer" else "Erreur serveur")]
    {
      if !confirmed {
        return None, [];
      }
      request := Some(id);
      match remove
      case Ok(_) =>
        alerts := FetchEntries(refresh);
      case NotOk(_) =>
        alerts := [Alert("Erreur", "Impossible de supprimer")];
      case Exception =>
        alerts := [Alert("Erreur", "Erreur serveur")];
    }
  }
}
