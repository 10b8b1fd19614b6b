/** The dish suggestions screen: a static catalogue, a favourite toggle,
    and a list filtered by a case-insensitive search and a meal moment. */
module Plats {
  import opened Host
  import Lists
  import Text

  datatype Plat = Plat(
    id: string, nom: string, description: string, moment: string,
    calories: int, glucides: int, image: string, favori: bool)

  /** The catalogue the screen starts from. */
  const Catalogue: seq<Plat> := [
    Plat("1", "Salade quinoa et légumes",
         "Riche en fibres et faible en sucre. Parfait pour le déjeuner.",
         "Déjeuner", 320, 45, "https://example.com/quinoa.jpg", false),
    Plat("2", "Filet de poulet grillé",
         "Source de protéines maigres. À accompagner de légumes vapeur.",
         "Dîner", 280, 0, "https://example.com/poulet.jpg", false),
    Plat("3", "Yaourt nature et amandes",
         "Collation saine à IG bas pour le matin ou l'après-midi.",
         "Collation", 180, 12, "https://example.com/yaourt.jpg", false),
    Plat("4", "Smoothie avocat-épinard",
         "Riche en bons lipides et vitamines, sans sucre ajouté.",
         "Petit déjeuner", 250, 15, "https://example.com/smoothie.jpg", false)
  ]

  /** The dish with `favori` flipped when its id is `id`. */
  function FlipIfMatch(id: string): Plat -> Plat {
    (p: Plat) => if p.id == id then p.(favori := !p.favori) else p
  }

  /** `toggleFavori(id)`: flips `favori` on the dishes with that id and on
      no other, keeping length, order and every other field. */
  function ToggleFavori(ps: seq<Plat>, id: string): (r: seq<Plat>)
    ensures |r| == |ps|
    ensures forall i :: 0 <= i < |ps| && ps[i].id != id ==> r[i] == ps[i]
    ensures forall i :: 0 <= i < |ps| && ps[i].id == id ==> r[i] == ps[i].(favori := !ps[i].favori)
  {
    Lists.Map(ps, FlipIfMatch(id))
  }

  /** The search test: the lower-cased query occurs in the lower-cased name
      or description. */
  predicate MatchesSearch(p: Plat, query: string) {
    Text.Contains(Text.Lower(p.nom), Text.Lower(query))
    || Text.Contains(Text.Lower(p.description), Text.Lower(query))
  }

  /** The moment test: no moment selected (null or the empty string), or
      the dish's moment is the selected one. */
  predicate MatchesMoment(p: Plat, selected: Option<string>) {
    selected.None? || selected.value == "" || p.moment == selected.value
  }

  /** Both tests: an empty query leaves only the moment test, and no
      selected moment only the search. */
  predicate Matches(p: Plat, query: string, selected: Option<string>): (r: bool)
    ensures query == "" ==> (r <==> MatchesMoment(p, selected))
    ensures selected.None? || selected == Some("") ==> (r <==> MatchesSearch(p, query))
  {
    assert query == "" ==> MatchesSearch(p, query) by {
      if query == "" {
        assert Text.Lower(query) == "";
      }
    }
    MatchesSearch(p, query) && MatchesMoment(p, selected)
  }

  /** `filteredPlats`: the dishes that pass both tests, in list order. */
  function FilteredPlats(ps: seq<Plat>, query: string, selected: Option<string>): (r: seq<Plat>)
    ensures Lists.IsSublist(r, ps)
    ensures forall i :: 0 <= i < |r| ==> r[i] in ps && Matches(r[i], query, selected)
    ensures forall i :: 0 <= i < |ps| && Matches(ps[i], query, selected) ==> ps[i] in r
    ensures forall i :: 0 <= i < |ps| && Matches(ps[i], query, selected) ==> multiset(r)[ps[i]] == multiset(ps)[ps[i]]
  {
    Lists.Filter(ps, (p: Plat) => Matches(p, query, selected))
  }

  function MomentOf(p: Plat): string { p.moment }

  /** `moments`: each moment of the catalogue once. */
  function Moments(ps: seq<Plat>): (r: seq<string>)
    ensures Lists.NoDuplicates(r)
    ensures forall i :: 0 <= i < |ps| ==> ps[i].moment in r
    ensures forall i :: 0 <= i < |r| ==> exists j :: 0 <= j < |ps| && ps[j].moment == r[i]
  {
    var all := Lists.Map(ps, MomentOf);
    var r := Lists.Distinct(all);
    assert forall i :: 0 <= i < |ps| ==> all[i] == ps[i].moment;
    r
  }

  /** `moments` follows the order in which each moment first appears in
      the catalogue. */
  lemma MomentsInFirstAppearanceOrder(ps: seq<Plat>)
    ensures forall i, j :: 0 <= i < j < |Moments(ps)| ==>
      Lists.FirstIndex(Lists.Map(ps, MomentOf), Moments(ps)[i]) < Lists.FirstIndex(Lists.Map(ps, MomentOf), Moments(ps)[j])
  {
    Lists.DistinctFirstAppearance(Lists.Map(ps, MomentOf));
  }

  /** With an empty query and no selected moment every dish is shown. */
  lemma NoFilterShowsAll(ps: seq<Plat>, selected: Option<string>)
    requires selected.None? || selected.value == ""
    ensures FilteredPlats(ps, "", selected) == ps
  {
    forall p: Plat | p in ps ensures Matches(p, "", selected) {
      assert Text.Lower("") == "";
    }
    Lists.FilterKeepsAll(ps, (p: Plat) => Matches(p, "", selected));
  }

  /** The favourite flag plays no part in the filter: toggling a favourite
      then filtering is filtering then toggling. */
  lemma ToggleCommutesWithFilter(ps: seq<Plat>, id: string, query: string, selected: Option<string>)
    ensures FilteredPlats(ToggleFavori(ps, id), query, selected)
         == ToggleFavori(FilteredPlats(ps, query, selected), id)
  {
    var keep := (p: Plat) => Matches(p, query, selected);
    forall p: Plat ensures keep(FlipIfMatch(id)(p)) == keep(p) {
      var q := FlipIfMatch(id)(p);
      assert q.nom == p.nom && q.description == p.description && q.moment == p.moment;
    }
    Lists.FilterMapCommute(ps, keep, FlipIfMatch(id));
  }

  /** Toggling the same dish twice gives the list back. */
  lemma ToggleFavoriInvolution(ps: seq<Plat>, id: string)
    ensures ToggleFavori(ToggleFavori(ps, id), id) == ps
  {
    var once := ToggleFavori(ps, id);
    var twice := ToggleFavori(once, id);
    assert forall i :: 0 <= i < |ps| ==> twice[i] == ps[i];
  }

  /** The search ignores case: a query and its lower-cased form select the
      same dishes. */
  lemma SearchIgnoresCase(ps: seq<Plat>, query: string, selected: Option<string>)
    ensures FilteredPlats(ps, Text.Lower(query), selected) == FilteredPlats(ps, query, selected)
  {
    Text.LowerIdempotent(query);
    SearchSameUpToCase(ps, Text.Lower(query), query, selected);
  }

  /** Two inputs that differ only in letter case select the same dishes. */
  lemma SearchSameUpToCase(ps: seq<Plat>, q1: string, q2: string, selected: Option<string>)
    requires Text.Lower(q1) == Text.Lower(q2)
    ensures FilteredPlats(ps, q1, selected) == FilteredPlats(ps, q2, selected)
  {
    Lists.FilterSamePredicate(ps, (p: Plat) => Matches(p, q1, selected), (p: Plat) => Matches(p, q2, selected));
  }

  /** The moments of the catalogue, as the filter buttons show them. */
  lemma CatalogueMoments()
    ensures Moments(Catalogue) == ["Déjeuner", "Dîner", "Collation", "Petit déjeuner"]
  {
    var a, b, c, d := "Déjeuner", "Dîner", "Collation", "Petit déjeuner";
    var all := Lists.Map(Catalogue, MomentOf);
    assert all == [a, b, c, d];
    assert a[1] != b[1] && a[0] != c[0] && a[0] != d[0] && b[0] != c[0] && b[0] != d[0] && c[0] != d[0];
    Lists.DistinctOfNoDuplicates(all);
  }

  /** Selecting a moment keeps only dishes of that moment, whatever the
      query, and with an empty query it keeps all of them. */
  lemma FilterByMoment(ps: seq<Plat>, query: string, m: string)
    requires m != ""
    ensures forall i :: 0 <= i < |FilteredPlats(ps, query, Some(m))| ==> FilteredPlats(ps, query, Some(m))[i].moment == m
    ensures forall i :: 0 <= i < |ps| && ps[i].moment == m ==> ps[i] in FilteredPlats(ps, "", Some(m))
  {
    forall i | 0 <= i < |ps| && ps[i].moment == m ensures Matches(ps[i], "", Some(m)) {
      assert Text.Lower("") == "";
    }
  }
}
