/** The VR forest gallery (src/app/vr/page.tsx): the planted trees, the
    header statistics, and the 360-degree viewer opened for one tree and
    closed by its button, the Escape key or a click on the backdrop. */
module VrGallery {
  import opened Basics

  datatype Tree = Tree(id: int, species: string, emoji: string, location: string, age: int,
                       height: real, co2PerYear: int, status: string, vrUrl: string)

  /** `treeData`. */
  function Trees(): seq<Tree> {
    [ Tree(1, "Douglas Fir", "\U{1F332}", "Pacific Northwest Forest, Oregon", 3, 4.5, 48, "Thriving",
           "https://www.360cities.net/embed_iframe/forest-37"),
      Tree(2, "Oak Tree", "\U{1F343}", "Black Forest, Germany", 5, 6.2, 62, "Healthy",
           "https://www.360cities.net/embed_iframe/forest-49"),
      Tree(3, "Maple Tree", "\U{1F333}", "Boreal Forest, Canada", 4, 5.8, 55, "Excellent",
           "https://www.360cities.net/embed_iframe/forest-53") ]
  }

  /** `s.split(' ')[0]`: everything before the first space, or all of `s`. */
  function FirstWord(s: string): (w: string)
    ensures w <= s
    ensures forall i :: 0 <= i < |w| ==> w[i] != ' '
    ensures |w| < |s| ==> s[|w|] == ' '
  {
    if s == [] || s[0] == ' ' then []
    else [s[0]] + FirstWord(s[1..])
  }

  /** `new Set(trees.map(t => first word of t.species))`. */
  function SpeciesSet(trees: seq<Tree>): set<string> {
    if trees == [] then {} else {FirstWord(trees[0].species)} + SpeciesSet(trees[1..])
  }

  /** The set holds exactly the trees' first words. */
  lemma {:induction false} SpeciesSetMembers(trees: seq<Tree>, w: string)
    ensures w in SpeciesSet(trees) <==> exists i :: 0 <= i < |trees| && FirstWord(trees[i].species) == w
  {
    if trees != [] {
      SpeciesSetMembers(trees[1..], w);
      if w in SpeciesSet(trees[1..]) {
        var j :| 0 <= j < |trees[1..]| && FirstWord(trees[1..][j].species) == w;
        assert trees[j + 1] == trees[1..][j];
      }
      if exists i :: 0 <= i < |trees| && FirstWord(trees[i].species) == w {
        var i :| 0 <= i < |trees| && FirstWord(trees[i].species) == w;
        if i > 0 {
          assert trees[1..][i - 1] == trees[i];
        }
      }
    }
  }

  /** `totalTrees`. */
  function TotalTrees(trees: seq<Tree>): nat { |trees| }

  /** `uniqueSpecies`. */
  function UniqueSpecies(trees: seq<Tree>): nat { |SpeciesSet(trees)| }

  /** There are never more distinct species than trees. */
  lemma {:induction false} UniqueAtMostTotal(trees: seq<Tree>)
    ensures UniqueSpecies(trees) <= TotalTrees(trees)
  {
    if trees != [] {
      UniqueAtMostTotal(trees[1..]);
      assert SpeciesSet(trees) == {FirstWord(trees[0].species)} + SpeciesSet(trees[1..]);
    }
  }

  /** `reduce((sum, tree) => sum + tree.co2PerYear, 0)`, from the left. */
  function SumCo2(trees: seq<Tree>): (total: int)
    ensures (forall i :: 0 <= i < |trees| ==> trees[i].co2PerYear >= 0) ==> total >= 0
  {
    if trees == [] then 0 else SumCo2(trees[..|trees| - 1]) + trees[|trees| - 1].co2PerYear
  }

  /** Adding a tree adds its yearly CO2 to the total, whichever end it is
      added at. */
  lemma {:induction false} SumCo2Cons(t: Tree, trees: seq<Tree>)
    ensures SumCo2([t] + trees) == t.co2PerYear + SumCo2(trees)
    decreases |trees|
  {
    if trees != [] {
      var init := trees[..|trees| - 1];
      assert ([t] + trees)[..|[t] + trees| - 1] == [t] + init;
      SumCo2Cons(t, init);
    }
  }

  /** `totalCO2` before formatting: tonnes per year. */
  function TotalCo2Tonnes(trees: seq<Tree>): (t: real)
    ensures t * 1000.0 == SumCo2(trees) as real
  {
    SumCo2(trees) as real / 1000.0
  }

  /** The first word of a word followed by a space and more text. */
  lemma {:induction false} FirstWordOf(w: string, rest: string)
    requires forall i :: 0 <= i < |w| ==> w[i] != ' '
    ensures FirstWord(w + " " + rest) == w
  {
    if w != [] {
      assert (w + " " + rest)[1..] == w[1..] + " " + rest;
      FirstWordOf(w[1..], rest);
    }
  }

  lemma DouglasWord() ensures FirstWord("Douglas Fir") == "Douglas" {
    FirstWordOf("Douglas", "Fir");
    assert "Douglas" + " " + "Fir" == "Douglas Fir";
  }
  lemma OakWord() ensures FirstWord("Oak Tree") == "Oak" {
    FirstWordOf("Oak", "Tree");
    assert "Oak" + " " + "Tree" == "Oak Tree";
  }
  lemma MapleWord() ensures FirstWord("Maple Tree") == "Maple" {
    FirstWordOf("Maple", "Tree");
    assert "Maple" + " " + "Tree" == "Maple Tree";
  }

  lemma CatalogueFirstWords()
    ensures FirstWord(Trees()[0].species) == "Douglas"
    ensures FirstWord(Trees()[1].species) == "Oak"
    ensures FirstWord(Trees()[2].species) == "Maple"
  {
    DouglasWord();
    OakWord();
    MapleWord();
  }

  lemma SpeciesOfThree(a: Tree, b: Tree, c: Tree)
    ensures SpeciesSet([a, b, c]) == {FirstWord(a.species), FirstWord(b.species), FirstWord(c.species)}
  {
    assert [a, b, c][1..] == [b, c];
    assert [b, c][1..] == [c];
    assert [c][1..] == [];
    assert SpeciesSet([c]) == {FirstWord(c.species)};
    assert SpeciesSet([b, c]) == {FirstWord(b.species)} + {FirstWord(c.species)};
  }

  lemma CatalogueSpecies()
    ensures SpeciesSet(Trees()) == {"Douglas", "Oak", "Maple"}
  {
    var ts := Trees();
    assert ts == [ts[0], ts[1], ts[2]];
    SpeciesOfThree(ts[0], ts[1], ts[2]);
    CatalogueFirstWords();
  }

  lemma CatalogueCo2()
    ensures SumCo2(Trees()) == 165
  {
    var ts := Trees();
    assert ts[..1][..0] == [];
    assert SumCo2(ts[..1]) == 48;
    assert ts[..2][..1] == ts[..1];
    assert SumCo2(ts[..2]) == 110;
    assert ts[..|ts| - 1] == ts[..2];
  }

  lemma ThreeDistinct(a: string, b: string, c: string)
    requires a != b && b != c && a != c
    ensures |{a, b, c}| == 3
  {
    assert {a, b, c} == {a, b} + {c};
    assert c !in {a, b};
  }

  lemma CatalogueUniqueSpecies()
    ensures UniqueSpecies(Trees()) == 3
  {
    CatalogueSpecies();
    var d, o, m := "Douglas", "Oak", "Maple";
    assert |d| == 7 && |o| == 3 && |m| == 5;
    ThreeDistinct(d, o, m);
  }

  lemma DisplayedTotal()
    ensures Round1(0.165) == 0.2
  {
    assert (10.0 * 0.165 + 0.5).Floor == 2;
  }

  /** The header: 3 trees, 3 species, 0.165 tonnes, shown as 0.2. */
  lemma GalleryStats()
    ensures TotalTrees(Trees()) == 3
    ensures UniqueSpecies(Trees()) == 3
    ensures TotalCo2Tonnes(Trees()) == 0.165
    ensures Round1(TotalCo2Tonnes(Trees())) == 0.2
  {
    CatalogueUniqueSpecies();
    CatalogueCo2();
    DisplayedTotal();
  }

  /** What reaches the viewer's state. */
  datatype ViewerEvent = Open(url: string) | CloseButton | KeyDown(key: string) | BackdropClick(onBackdropItself: bool)

  /** `openVR`, `closeVR`, the Escape listener and the backdrop's handler,
      which closes only when the click landed on the backdrop itself rather
      than on the viewer inside it. */
  function NextSelection(selected: Option<string>, e: ViewerEvent): (r: Option<string>)
    ensures e.Open? ==> r == Some(e.url)
    ensures e.CloseButton? ==> r.None?
    ensures e.KeyDown? ==> r == (if e.key == "Escape" then None else selected)
    ensures e.BackdropClick? ==> r == (if e.onBackdropItself then None else selected)
  {
    match e
    case Open(url) => Some(url)
    case CloseButton => None
    case KeyDown(key) => if key == "Escape" then None else selected
    case BackdropClick(self) => if self then None else selected
  }

  /** `{selectedVR && (...)}`: the viewer is rendered for a non-empty URL. */
  predicate ViewerShown(selected: Option<string>) {
    selected.Some? && selected.value != ""
  }

  /** Every tree's button opens the viewer on that tree's URL. */
  lemma OpeningATreeShowsIt(i: nat, selected: Option<string>)
    requires i < |Trees()|
    ensures NextSelection(selected, Open(Trees()[i].vrUrl)) == Some(Trees()[i].vrUrl)
    ensures ViewerShown(NextSelection(selected, Open(Trees()[i].vrUrl)))
  {
  }

  /** Only opening shows the viewer: after any other event it is hidden
      unless it was already shown. */
  lemma OnlyOpenShows(selected: Option<string>, e: ViewerEvent)
    requires !e.Open?
    ensures ViewerShown(NextSelection(selected, e)) ==> ViewerShown(selected)
  {
  }

  /** `selectedVR`. */
  class Gallery {
    var selectedVR: Option<string>

    constructor()
      ensures selectedVR.None?
    {
      selectedVR := None;
    }

    method OpenVR(url: string)
      modifies this
      ensures selectedVR == NextSelection(old(selectedVR), Open(url))
    {
      selectedVR := Some(url);
    }

    method CloseVR()
      modifies this
      ensures selectedVR == NextSelection(old(selectedVR), CloseButton)
    {
      selectedVR := None;
    }

    method HandleEsc(key: string)
      modifies this
      ensures selectedVR == NextSelection(old(selectedVR), KeyDown(key))
    {
      if key == "Escape" {
        CloseVR();
      }
    }

    method HandleBackdropClick(onBackdropItself: bool)
      modifies this
      ensures selectedVR == NextSelection(old(selectedVR), BackdropClick(onBackdropItself))
    {
      if onBackdropItself {
        CloseVR();
      }
    }
  }
}
