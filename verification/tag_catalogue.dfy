/** The static sample catalogue and its tag index `allTags`: every item's
    tags, flattened, de-duplicated through a `Set`, and sorted with the
    default `sort()`. */
module TagCatalogue {
  import opened Text
  import opened Order

  /** One sample item. */
  datatype Item = Item(id: Str, title: Str, description: Str, imageId: Str, tags: seq<Str>)

  /** `contentData`: the six sample items, with their ids, image ids and tags. */
  const ContentData: seq<Item> := [
    Item("1", "Intro to Python for Data Science",
         "Learn the fundamentals of Python programming and its applications in data science.",
         "1", ["Programming", "Python", "Data Science"]),
    Item("2", "History of Ancient Rome",
         "Explore the rise and fall of the Roman Empire, from its origins to its collapse.",
         "2", ["History", "Ancient Civilizations", "Rome"]),
    Item("3", "The Science of Climate Change",
         "Understand the scientific principles behind climate change and its global impact.",
         "3", ["Science", "Environment", "Climate Change"]),
    Item("4", "Basics of Graphic Design",
         "A beginner's guide to the principles of visual communication and design.",
         "4", ["Design", "Art", "Creativity"]),
    Item("5", "Introduction to Machine Learning",
         "Grasp the core concepts of machine learning and build your first predictive models.",
         "5", ["Technology", "AI", "Machine Learning"]),
    Item("6", "Creative Writing Workshop",
         "Unlock your storytelling potential with this workshop on narrative techniques.",
         "6", ["Writing", "Literature", "Creativity"])
  ]

  /** Some item carries tag `t`. */
  predicate Carries(items: seq<Item>, t: Str)
  {
    exists k :: 0 <= k < |items| && t in items[k].tags
  }

  lemma CarriesSplit(items: seq<Item>, t: Str)
    requires items != []
    ensures Carries(items, t) <==> t in items[0].tags || Carries(items[1..], t)
  {
    if Carries(items[1..], t) {
      var k :| 0 <= k < |items| - 1 && t in items[1..][k].tags;
      assert items[k + 1] == items[1..][k];
    }
    if Carries(items, t) && t !in items[0].tags {
      var k :| 0 <= k < |items| && t in items[k].tags;
      assert items[1..][k - 1] == items[k];
    }
  }

  /** `flatMap(item => item.tags)`: all tags, item after item. */
  function FlatTags(items: seq<Item>): (r: seq<Str>)
    ensures forall t :: t in r <==> Carries(items, t)
  {
    if items == [] then []
    else
      var rest := FlatTags(items[1..]);
      assert forall t :: Carries(items, t) <==> t in items[0].tags || Carries(items[1..], t) by {
        forall t ensures Carries(items, t) <==> t in items[0].tags || Carries(items[1..], t) {
          CarriesSplit(items, t);
        }
      }
      items[0].tags + rest
  }

  /** No string occurs twice. */
  predicate NoDuplicates(s: seq<Str>)
  {
    forall i, j :: 0 <= i < j < |s| ==> s[i] != s[j]
  }

  /** `[...new Set(s)]`: the first occurrence of each string, in order. */
  function Unique(s: seq<Str>): (r: seq<Str>)
    ensures forall t :: t in r <==> t in s
    ensures NoDuplicates(r)
    decreases |s|
  {
    if s == [] then []
    else
      var init := Unique(s[..|s| - 1]);
      var last := s[|s| - 1];
      assert s == s[..|s| - 1] + [last];
      if last in init then init else init + [last]
  }

  /** `allTags`: it holds exactly the tags some item carries, in strictly
      ascending code-unit order, so none is listed twice. */
  function AllTags(items: seq<Item>): (r: seq<Str>)
    ensures forall t :: t in r <==> Carries(items, t)
    ensures StrictlySorted(r)
  {
    var u := Unique(FlatTags(items));
    SortKeepsMembers(u);
    SortDistinct(u);
    Sort(u)
  }

  /** Sorting keeps exactly the strings it was given. */
  lemma SortKeepsMembers(s: seq<Str>)
    ensures forall t :: t in Sort(s) <==> t in s
  {
    forall t ensures t in Sort(s) <==> t in s {
      assert t in Sort(s) <==> t in multiset(Sort(s));
      assert t in s <==> t in multiset(s);
    }
  }

  /** Sorting a duplicate-free sequence gives a strictly ascending one. */
  lemma SortDistinct(u: seq<Str>)
    requires NoDuplicates(u)
    ensures StrictlySorted(Sort(u))
  {
    var r := Sort(u);
    forall i, j | 0 <= i < j < |r| ensures r[i] != r[j] {
      if r[i] == r[j] {
        MultisetNoDuplicates(u, r[i]);
        TwoPositions(r, i, j);
      }
    }
    SortedDistinct(r);
  }

  /** In a duplicate-free sequence every element occurs at most once. */
  lemma {:induction false} MultisetNoDuplicates(s: seq<Str>, x: Str)
    requires NoDuplicates(s)
    ensures multiset(s)[x] <= 1
  {
    if s != [] {
      MultisetNoDuplicates(s[1..], x);
      assert s == [s[0]] + s[1..];
      if s[0] == x {
        assert x !in s[1..];
      }
    }
  }

  /** An element found at two positions occurs at least twice. */
  lemma {:induction false} TwoPositions(s: seq<Str>, i: int, j: int)
    requires 0 <= i < j < |s| && s[i] == s[j]
    ensures multiset(s)[s[i]] >= 2
  {
    assert s == s[..j] + [s[j]] + s[j + 1..];
    assert s[i] in s[..j];
  }

  /** The sample catalogue's index, written out in code-unit order. */
  const SampleTags: seq<Str> := [
    "AI", "Ancient Civilizations", "Art", "Climate Change", "Creativity",
    "Data Science", "Design", "Environment", "History", "Literature",
    "Machine Learning", "Programming", "Python", "Rome", "Science",
    "Technology", "Writing"
  ]

  /** The sample items' tags, flattened. */
  lemma SampleFlatTags()
    ensures FlatTags(ContentData) == [
      "Programming", "Python", "Data Science",
      "History", "Ancient Civilizations", "Rome",
      "Science", "Environment", "Climate Change",
      "Design", "Art", "Creativity",
      "Technology", "AI", "Machine Learning",
      "Writing", "Literature", "Creativity"]
  {
  }

  /** The flattened tags and `SampleTags` hold the same strings. */
  lemma SampleTagsSameStrings(t: Str)
    ensures t in FlatTags(ContentData) <==> t in SampleTags
  {
    SampleFlatTags();
  }

  /** For the sample data `allTags` is the seventeen tags above: "Creativity",
      carried by items 4 and 6, appears once. */
  lemma SampleCatalogue()
    ensures AllTags(ContentData) == SampleTags
    ensures |AllTags(ContentData)| == 17
  {
    SampleTagsStrictlySorted();
    forall t ensures t in AllTags(ContentData) <==> t in SampleTags {
      SampleTagsSameStrings(t);
    }
    StrictlySortedUnique(AllTags(ContentData), SampleTags);
  }

  lemma SampleTagsStrictlySorted()
    ensures StrictlySorted(SampleTags)
  {
    assert Below("AI", "Ancient Civilizations");
    assert Below("Ancient Civilizations", "Art");
    assert Below("Art", "Climate Change");
    assert Below("Climate Change", "Creativity");
    assert Below("Creativity", "Data Science");
    assert Below("Data Science", "Design");
    assert Below("Design", "Environment");
    assert Below("Environment", "History");
    assert Below("History", "Literature");
    assert Below("Literature", "Machine Learning");
    assert Below("Machine Learning", "Programming");
    assert Below("Programming", "Python");
    assert Below("Python", "Rome");
    assert Below("Rome", "Science");
    assert Below("Science", "Technology");
    assert Below("Technology", "Writing");
    ChainStrictlySorted(SampleTags);
  }
}
