/** Step 2 of the report wizard, the template picker: a fixed catalogue of
    five templates, filtered by a name search and a category choice whose
    list is derived from the catalogue, and a single selection that both
    the grid and the list view set. */
module Templates {
  import opened Wrappers
  import opened Seqs
  import opened Text

  /** A catalogue entry; the preview image address and the description are
      only displayed. */
  datatype Template = Template(id: string, name: string, category: string)

  /** `mockTemplates`. */
  function MockTemplates(): (r: seq<Template>)
    ensures |r| == 5
  {
    [ Template("tpl1", "Daily Production Overview", "Production"),
      Template("tpl2", "Weekly Maintenance Log", "Maintenance"),
      Template("tpl3", "Monthly Quality Report", "Quality"),
      Template("tpl4", "Shift Handover Notes", "Operations"),
      Template("tpl5", "Equipment Downtime Analysis", "Maintenance") ]
  }

  /** The catalogue's ids are pairwise distinct, so an id picks out one
      template. */
  lemma TemplateIdsDistinct()
    ensures forall i, j :: 0 <= i < j < |MockTemplates()| ==> MockTemplates()[i].id != MockTemplates()[j].id
  {
    var t := MockTemplates();
    forall i, j | 0 <= i < j < |t| ensures t[i].id != t[j].id {
      assert t[i].id[3] != t[j].id[3];
    }
  }

  // ---------------------------------------------------------------------------
  // Filtering

  /** The category choice that lets every template through. */
  const AllCategories: string := "all"

  /** A template is listed when its lower-cased name contains the lower-cased
      term and the category choice is "all" or exactly its category. */
  predicate Listed(t: Template, searchTerm: string, filterCategory: string) {
    Contains(Lower(t.name), Lower(searchTerm))
    && (filterCategory == AllCategories || t.category == filterCategory)
  }

  /** `filteredTemplates`. */
  function FilteredTemplates(searchTerm: string, filterCategory: string): (r: seq<Template>)
    ensures forall i :: 0 <= i < |r| ==> r[i] in MockTemplates() && Listed(r[i], searchTerm, filterCategory)
    ensures forall i :: 0 <= i < |MockTemplates()| && Listed(MockTemplates()[i], searchTerm, filterCategory) ==>
      MockTemplates()[i] in r
  {
    Filter(MockTemplates(), t => Listed(t, searchTerm, filterCategory))
  }

  /** The listed templates keep the catalogue's order; an empty term with
      "all" lists all five; a category no template has lists none. */
  lemma FilteredTemplatesProperties(searchTerm: string, filterCategory: string)
    ensures Subsequence(FilteredTemplates(searchTerm, filterCategory), MockTemplates())
    ensures searchTerm == "" && filterCategory == AllCategories ==>
      FilteredTemplates(searchTerm, filterCategory) == MockTemplates()
    ensures filterCategory != AllCategories && filterCategory !in Categories() ==>
      FilteredTemplates(searchTerm, filterCategory) == []
  {
    var p := t => Listed(t, searchTerm, filterCategory);
    FilterIsSubsequence(MockTemplates(), p);
    if searchTerm == "" && filterCategory == AllCategories {
      forall i | 0 <= i < |MockTemplates()| ensures p(MockTemplates()[i]) {
        ContainsEmpty(Lower(MockTemplates()[i].name));
      }
      FilterAll(MockTemplates(), p);
    }
    if filterCategory != AllCategories && filterCategory !in Categories() {
      CategoriesProperties();
    }
  }

  // ---------------------------------------------------------------------------
  // The category select

  /** `mockTemplates.map(t => t.category)`. */
  function CatalogueCategories(): seq<string> {
    seq(|MockTemplates()|, i requires 0 <= i < |MockTemplates()| => MockTemplates()[i].category)
  }

  /** `categories`: "all" followed by the distinct categories of the
      catalogue in order of first appearance. */
  function Categories(): (r: seq<string>)
    ensures |r| >= 1 && r[0] == AllCategories
    ensures forall k :: 1 <= k < |r| ==> r[k] in CatalogueCategories()
  {
    CategoryList(CatalogueCategories())
  }

  /** "all" followed by the distinct entries of `cats`. */
  function CategoryList(cats: seq<string>): (r: seq<string>)
    ensures |r| >= 1 && r[0] == AllCategories
    ensures forall k :: 1 <= k < |r| ==> r[k] in cats
  {
    [AllCategories] + Distinct(cats)
  }

  /** For any list of categories without "all": every category is listed,
      none twice, in the order of first occurrence. */
  lemma CategoryListProperties(cats: seq<string>)
    requires AllCategories !in cats
    ensures forall i :: 0 <= i < |cats| ==> cats[i] in CategoryList(cats)
    ensures NoDuplicates(CategoryList(cats))
    ensures forall k, l :: 1 <= k < l < |CategoryList(cats)| ==>
      FirstIndex(cats, CategoryList(cats)[k]) < FirstIndex(cats, CategoryList(cats)[l])
  {
    DistinctFromProperties(cats, []);
    var d := Distinct(cats);
    forall k | 0 <= k < |d| ensures d[k] != AllCategories {
      assert d[k] in cats;
    }
    CategoryListOrder(cats);
  }

  /** The categories after "all" keep their order of first occurrence. */
  lemma CategoryListOrder(cats: seq<string>)
    ensures forall k, l :: 1 <= k < l < |CategoryList(cats)| ==>
      FirstIndex(cats, CategoryList(cats)[k]) < FirstIndex(cats, CategoryList(cats)[l])
  {
    DistinctFromOrder(cats, []);
    var d, r := Distinct(cats), CategoryList(cats);
    forall k, l | 1 <= k < l < |r| ensures FirstIndex(cats, r[k]) < FirstIndex(cats, r[l]) {
      assert r[k] == d[k - 1] && r[l] == d[l - 1];
    }
  }

  /** The list starts with "all", names every category of the catalogue, names
      nothing else, names nothing twice, and lists the categories in the order
      in which they first occur in the catalogue. */
  lemma CategoriesProperties()
    ensures Categories()[0] == AllCategories
    ensures forall i :: 0 <= i < |MockTemplates()| ==> MockTemplates()[i].category in Categories()
    ensures forall k :: 1 <= k < |Categories()| ==>
      exists i :: 0 <= i < |MockTemplates()| && MockTemplates()[i].category == Categories()[k]
    ensures NoDuplicates(Categories())
    ensures forall k, l :: 1 <= k < l < |Categories()| ==>
      FirstIndex(CatalogueCategories(), Categories()[k]) < FirstIndex(CatalogueCategories(), Categories()[l])
  {
    var cats := CatalogueCategories();
    assert AllCategories !in cats;
    CategoryListProperties(cats);
    forall i | 0 <= i < |MockTemplates()| ensures MockTemplates()[i].category in Categories() {
      assert cats[i] == MockTemplates()[i].category;
    }
    forall k | 1 <= k < |Categories()|
      ensures exists i :: 0 <= i < |MockTemplates()| && MockTemplates()[i].category == Categories()[k]
    {
      var i :| 0 <= i < |cats| && cats[i] == Categories()[k];
      assert MockTemplates()[i].category == cats[i];
    }
  }

  /** For this catalogue the list is "all", Production, Maintenance, Quality,
      Operations: Maintenance, which two templates share, appears once. */
  lemma CategoriesOfCatalogue()
    ensures Categories() == ["all", "Production", "Maintenance", "Quality", "Operations"]
  {
    var cats := CatalogueCategories();
    var p, m, q, o := "Production", "Maintenance", "Quality", "Operations";
    assert cats == [p, m, q, o, m];
    assert o[0] != p[0] && o[0] != m[0] && o[0] != q[0] && q[0] != p[0] && q[0] != m[0] && m[0] != p[0];
    DistinctRepeatLast(p, m, q, o);
  }

  /** Four different values followed by a repeat of the second: the repeat is
      dropped and the order kept. */
  lemma DistinctRepeatLast<T>(p: T, m: T, q: T, o: T)
    requires p != m && p != q && p != o && m != q && m != o && q != o
    ensures Distinct([p, m, q, o, m]) == [p, m, q, o]
  {
    assert [p, m, q, o, m] == [p] + ([m] + ([q] + ([o] + [m])));
    calc {
      DistinctFrom([p] + ([m] + ([q] + ([o] + [m]))), []);
      == { DistinctFromKeep(p, [m] + ([q] + ([o] + [m])), []); }
      [p] + DistinctFrom([m] + ([q] + ([o] + [m])), [] + [p]);
      == { DistinctFromKeep(m, [q] + ([o] + [m]), [] + [p]); }
      [p] + ([m] + DistinctFrom([q] + ([o] + [m]), [] + [p] + [m]));
      == { DistinctFromKeep(q, [o] + [m], [] + [p] + [m]); }
      [p] + ([m] + ([q] + DistinctFrom([o] + [m], [] + [p] + [m] + [q])));
      == { DistinctFromKeep(o, [m], [] + [p] + [m] + [q]); }
      [p] + ([m] + ([q] + ([o] + DistinctFrom([m], [] + [p] + [m] + [q] + [o]))));
      == { DistinctFromSkip(m, [], [] + [p] + [m] + [q] + [o]); }
      [p] + ([m] + ([q] + ([o] + DistinctFrom([], [] + [p] + [m] + [q] + [o]))));
    }
  }

  // ---------------------------------------------------------------------------
  // The picker's state

  datatype ViewMode = Grid | List

  class TemplatePicker {
    var viewMode: ViewMode
    var selectedTemplate: Option<string>
    var searchTerm: string
    var filterCategory: string

    constructor ()
      ensures viewMode == Grid && selectedTemplate == None && searchTerm == "" && filterCategory == AllCategories
    {
      viewMode := Grid;
      selectedTemplate := None;
      searchTerm := "";
      filterCategory := AllCategories;
    }

    /** The templates currently shown. */
    function Shown(): seq<Template>
      reads this
    {
      FilteredTemplates(searchTerm, filterCategory)
    }

    /** Whether a template card is highlighted as the selection. */
    function IsSelected(t: Template): bool
      reads this
    {
      selectedTemplate == Some(t.id)
    }

    /** Clicking a card, in either view, selects exactly that template. */
    method SelectTemplate(t: Template)
      modifies this
      ensures selectedTemplate == Some(t.id)
      ensures viewMode == old(viewMode) && searchTerm == old(searchTerm) && filterCategory == old(filterCategory)
    {
      selectedTemplate := Some(t.id);
    }

    method SetViewMode(mode: ViewMode)
      modifies this
      ensures viewMode == mode
      ensures selectedTemplate == old(selectedTemplate) && searchTerm == old(searchTerm) && filterCategory == old(filterCategory)
    {
      viewMode := mode;
    }

    method SetSearchTerm(term: string)
      modifies this
      ensures searchTerm == term
      ensures selectedTemplate == old(selectedTemplate) && viewMode == old(viewMode) && filterCategory == old(filterCategory)
    {
      searchTerm := term;
    }

    method SetFilterCategory(category: string)
      modifies this
      ensures filterCategory == category
      ensures selectedTemplate == old(selectedTemplate) && viewMode == old(viewMode) && searchTerm == old(searchTerm)
    {
      filterCategory := category;
    }
  }

  /** Because the ids are distinct, at most one catalogue template is
      highlighted whatever the selection holds. */
  lemma AtMostOneSelected(selected: Option<string>)
    ensures forall i, j :: 0 <= i < j < |MockTemplates()| && selected == Some(MockTemplates()[i].id) ==>
      selected != Some(MockTemplates()[j].id)
  {
    TemplateIdsDistinct();
  }
}
