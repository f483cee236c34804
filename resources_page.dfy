/** The study resources listing: the search / subject / type filter. */
module ResourcesPage {
  import opened Common
  import Seqs
  import Text
  import CardResource

  /** A resource as the listing holds it; `kind` is one of the card's type values. */
  datatype ResourceItem = ResourceItem(
    id: string,
    title: string,
    kind: string,
    subject: string,
    description: string,
    uploadedBy: string,
    uploadDate: string,
    likes: int,
    downloads: int)

  /** Only the title and the description are searched, case-insensitively; never the subject. */
  predicate MatchesSearch(x: ResourceItem, searchTerm: string)
  {
    var q := Text.Lower(searchTerm);
    Text.Contains(Text.Lower(x.title), q) || Text.Contains(Text.Lower(x.description), q)
  }

  predicate ItemMatches(x: ResourceItem, searchTerm: string, selectedSubject: string, selectedType: string)
  {
    && MatchesSearch(x, searchTerm)
    && (selectedSubject == "All Subjects" || x.subject == selectedSubject)
    && (selectedType == "all" || x.kind == selectedType)
  }

  /** `filteredResources`: exactly the resources passing the search, subject and type tests, in order. */
  function FilteredResources(items: seq<ResourceItem>, searchTerm: string, selectedSubject: string, selectedType: string)
    : (r: seq<ResourceItem>)
    ensures Seqs.IsSubsequence(r, items)
    ensures forall x :: multiset(r)[x]
                        == if ItemMatches(x, searchTerm, selectedSubject, selectedType) then multiset(items)[x] else 0
  {
    var p := (x: ResourceItem) => ItemMatches(x, searchTerm, selectedSubject, selectedType);
    Seqs.FilterSelects(p, items);
    Seqs.Filter(p, items)
  }

  /** The search never reads the subject: an item whose subject alone mentions the term is dropped. */
  lemma SubjectIsNotSearched(x: ResourceItem, searchTerm: string)
    requires !Text.Contains(Text.Lower(x.title), Text.Lower(searchTerm))
    requires !Text.Contains(Text.Lower(x.description), Text.Lower(searchTerm))
    ensures forall items, subject, kind :: x !in FilteredResources(items, searchTerm, subject, kind)
  {
    forall items, subject, kind ensures x !in FilteredResources(items, searchTerm, subject, kind) {
      var r := FilteredResources(items, searchTerm, subject, kind);
      assert multiset(r)[x] == 0;
    }
  }

  /** With no search term, "All Subjects" and type "all", the listing shows every resource in order. */
  lemma UnfilteredListingIsEverything(items: seq<ResourceItem>)
    ensures FilteredResources(items, "", "All Subjects", "all") == items
  {
    forall i | 0 <= i < |items| ensures ItemMatches(items[i], "", "All Subjects", "all") {
      Text.ContainsEmpty(Text.Lower(items[i].title));
    }
    Seqs.FilterKeepsAll((x: ResourceItem) => ItemMatches(x, "", "All Subjects", "all"), items);
  }

  /** `<ResourceCard {...resource} />`: the card receives the item's fields as its props. */
  function CardProps(x: ResourceItem): CardResource.ResourceCardProps
  {
    CardResource.ResourceCardProps(x.id, x.title, x.kind, Some(x.subject), x.description,
                                   Some(x.uploadedBy), Some(x.uploadDate), Some(x.likes), Some(x.downloads), None)
  }

  /** A concrete type filter keeps only items whose card carries that type's label. */
  lemma TypeFilterFixesLabel(items: seq<ResourceItem>, searchTerm: string, selectedSubject: string, selectedType: string)
    requires selectedType != "all"
    ensures forall x :: x in FilteredResources(items, searchTerm, selectedSubject, selectedType) ==>
      x.kind == selectedType && CardResource.View(CardProps(x)).typeLabel == CardResource.TypeLabel(selectedType)
  {
    var r := FilteredResources(items, searchTerm, selectedSubject, selectedType);
    forall x | x in r ensures x.kind == selectedType {
      assert multiset(r)[x] > 0;
    }
  }
}
