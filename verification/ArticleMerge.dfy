/** The news refresh merges articles with the same normalised title, in place and
    with shared source lists. */
module ArticleMerge {

  /** A list object; several articles may hold the same one. */
  class SourceList {
    var items: seq<string>

    constructor (first: string)
      ensures items == [first]
    {
      items := [first];
    }
  }

  class Article {
    const title: string
    const source: string
    const stars: int
    var sources: SourceList?

    constructor (title: string, source: string, stars: int)
      ensures this.title == title && this.source == source && this.stars == stars && sources == null
    {
      this.title, this.source, this.stars, sources := title, source, stars, null;
    }
  }

  // ---------------------------------------------- what the merge should give

  /** What the merge reads of an article, with its normalised title. */
  datatype Item = Item(key: string, source: string, stars: int)

  function ItemOf(a: Article, key: string -> string): Item {
    Item(key(a.title), a.source, a.stars)
  }

  function Items(articles: seq<Article>, key: string -> string): (items: seq<Item>)
    ensures |items| == |articles|
    ensures forall i :: 0 <= i < |articles| ==> items[i] == ItemOf(articles[i], key)
  {
    seq(|articles|, i requires 0 <= i < |articles| => ItemOf(articles[i], key))
  }

  function Init<T>(s: seq<T>): seq<T>
    requires s != []
  {
    s[..|s| - 1]
  }

  function Last<T>(s: seq<T>): T
    requires s != []
  {
    s[|s| - 1]
  }

  /** How many items have a title to compare. */
  function Keyed(items: seq<Item>): nat {
    if items == [] then 0 else Keyed(Init(items)) + if Last(items).key == "" then 0 else 1
  }

  /** The distinct titles, as they first appear. */
  function Order(items: seq<Item>): seq<string> {
    if items == [] then []
    else
      var prev, k := Order(Init(items)), Last(items).key;
      if k == "" || k in prev then prev else prev + [k]
  }

  /** One more than the index of the survivor of a group; zero for no group. */
  function Best(items: seq<Item>, k: string): (b: nat)
    ensures b <= |items|
  {
    if items == [] then 0
    else
      var prev := Best(Init(items), k);
      if Last(items).key == k && (prev == 0 || Last(items).stars > items[prev - 1].stars) then |items| else prev
  }

  function Sources(items: seq<Item>, k: string): seq<string> {
    if items == [] then []
    else
      var prev, last := Sources(Init(items), k), Last(items);
      if last.key != k then prev
      else if prev == [] then [last.source]
      else if last.source == "" || last.source in prev then prev
      else prev + [last.source]
  }

  predicate InGroup(items: seq<Item>, k: string, i: int) {
    0 <= i < |items| && items[i].key == k
  }

  ghost predicate HasGroup(items: seq<Item>, k: string) {
    exists i :: InGroup(items, k, i)
  }

  /** Main result.  The survivor is the earliest article with the most stars. */
  lemma {:induction false} SurvivorIsEarliestBest(items: seq<Item>, k: string)
    ensures Best(items, k) == 0 <==> !HasGroup(items, k)
    ensures Best(items, k) != 0 ==>
              var b := Best(items, k) - 1;
              && InGroup(items, k, b)
              && (forall i :: InGroup(items, k, i) ==> items[i].stars <= items[b].stars)
              && (forall i :: InGroup(items, k, i) && items[i].stars == items[b].stars ==> b <= i)
  {
    if items != [] {
      var init := Init(items);
      SurvivorIsEarliestBest(init, k);
      assert forall i :: InGroup(init, k, i) ==> InGroup(items, k, i);
      assert forall i :: InGroup(items, k, i) ==> i == |items| - 1 || InGroup(init, k, i);
      assert Last(items).key == k ==> InGroup(items, k, |items| - 1);
    }
  }

  /** `s` was offered by the group before `t` ever was. */
  ghost predicate SeenFirst(items: seq<Item>, k: string, s: string, t: string) {
    exists i :: InGroup(items, k, i) && items[i].source == s &&
      forall j :: InGroup(items, k, j) && j <= i ==> items[j].source != t
  }

  ghost predicate Offers(items: seq<Item>, k: string, s: string) {
    exists i :: InGroup(items, k, i) && items[i].source == s
  }

  lemma OffersGrow(items: seq<Item>, k: string, s: string, t: string)
    requires items != []
    ensures Offers(items, k, s) <==> Offers(Init(items), k, s) || Last(items) == Item(k, s, Last(items).stars)
    ensures SeenFirst(Init(items), k, s, t) ==> SeenFirst(items, k, s, t)
    ensures Offers(Init(items), k, s) && !Offers(Init(items), k, t) ==> SeenFirst(items, k, s, t)
  {
    var init := Init(items);
    assert forall i :: InGroup(init, k, i) ==> InGroup(items, k, i) && items[i] == init[i];
    assert forall i :: InGroup(items, k, i) ==> i == |items| - 1 || InGroup(init, k, i);
    if Last(items) == Item(k, s, Last(items).stars) {
      assert InGroup(items, k, |items| - 1);
    }
    if i :| InGroup(init, k, i) && init[i].source == s &&
            forall j :: InGroup(init, k, j) && j <= i ==> init[j].source != t {
      assert InGroup(items, k, i) && forall j :: InGroup(items, k, j) && j <= i ==> items[j].source != t;
    }
    if i :| InGroup(init, k, i) && init[i].source == s {
      if !Offers(init, k, t) {
        assert InGroup(items, k, i) && forall j :: InGroup(items, k, j) && j <= i ==> items[j].source != t;
      }
    }
  }

  /** Main result.  The merged sources are exactly the group's non-empty sources,
      each once, in the order they were first offered; an empty source is kept
      only from the group's first article, and then leads the list. */
  lemma {:induction false} SourcesAreFirstSeen(items: seq<Item>, k: string)
    ensures var ss := Sources(items, k);
            && (ss == [] <==> !HasGroup(items, k))
            && (forall s :: s != "" ==> (s in ss <==> Offers(items, k, s)))
            && (forall i, j :: 0 <= i < j < |ss| ==> ss[i] != ss[j] && SeenFirst(items, k, ss[i], ss[j]))
            && (forall i :: 0 < i < |ss| ==> ss[i] != "")
            && (forall s :: s in ss ==> Offers(items, k, s))
  {
    hide Offers, SeenFirst, HasGroup;
    EmptyHasNone(k);
    if items != [] {
      var init := Init(items);
      SourcesAreFirstSeen(init, k);
      GroupGrows(items, k);
      var prev, ss := Sources(init, k), Sources(items, k);
      forall s
        ensures s != "" ==> (s in ss <==> Offers(items, k, s))
        ensures s in ss ==> Offers(items, k, s)
      {
        OffersGrow(items, k, s, s);
        NoGroupNoOffer(init, k, s);
      }
      forall i, j | 0 <= i < j < |ss|
        ensures ss[i] != ss[j] && SeenFirst(items, k, ss[i], ss[j])
      {
        OffersGrow(items, k, ss[i], ss[j]);
        assert prev <= ss;
        if j == |prev| {
          assert ss[i] in prev;
        }
      }
    }
  }

  lemma EmptyHasNone(k: string)
    ensures !HasGroup([], k) && forall s :: !Offers([], k, s)
  {
  }

  lemma GroupGrows(items: seq<Item>, k: string)
    requires items != []
    ensures HasGroup(items, k) <==> HasGroup(Init(items), k) || Last(items).key == k
  {
    assert forall i :: InGroup(Init(items), k, i) ==> InGroup(items, k, i);
    assert forall i :: InGroup(items, k, i) ==> i == |items| - 1 || InGroup(Init(items), k, i);
    assert Last(items).key == k ==> InGroup(items, k, |items| - 1);
  }

  lemma NoGroupNoOffer(items: seq<Item>, k: string, s: string)
    ensures !HasGroup(items, k) ==> !Offers(items, k, s)
  {
  }

  /** Index of the first article of a group. */
  ghost predicate FirstAt(items: seq<Item>, k: string, i: int) {
    InGroup(items, k, i) && forall j :: InGroup(items, k, j) ==> i <= j
  }

  /** Main result.  The output lists each non-empty title once, in the order the
      titles first appear. */
  lemma {:induction false} OrderIsFirstOccurrence(items: seq<Item>)
    ensures var ks := Order(items);
            && (forall k :: k in ks <==> k != "" && HasGroup(items, k))
            && (forall i, j :: 0 <= i < j < |ks| ==> ks[i] != ks[j])
            && (forall i, j, p, q :: 0 <= i < j < |ks| && FirstAt(items, ks[i], p) && FirstAt(items, ks[j], q) ==>
                  p < q)
  {
    hide FirstAt, HasGroup;
    forall k
      ensures !HasGroup([], k)
    {
      EmptyHasNone(k);
    }
    if items != [] {
      var init := Init(items);
      OrderIsFirstOccurrence(init);
      var prev, ks := Order(init), Order(items);
      forall k
        ensures k in ks <==> k != "" && HasGroup(items, k)
      {
        GroupGrows(items, k);
      }
      forall i, j, p, q | 0 <= i < j < |ks| && FirstAt(items, ks[i], p) && FirstAt(items, ks[j], q)
        ensures p < q
      {
        assert prev <= ks;
        assert ks[i] in prev;
        FirstAtInit(items, ks[i], p);
        if j < |prev| {
          assert ks[j] in prev;
          FirstAtInit(items, ks[j], q);
        } else {
          FirstAtLast(items, ks[j], q);
        }
      }
    }
  }

  /** The articles counted are those with a title to compare. */
  lemma {:induction false} KeyedCounts(items: seq<Item>)
    ensures Keyed(items) == |set i | 0 <= i < |items| && items[i].key != ""|
  {
    var all := set i | 0 <= i < |items| && items[i].key != "";
    if items != [] {
      var n := |items| - 1;
      KeyedCounts(Init(items));
      var before := set i | 0 <= i < n && Init(items)[i].key != "";
      assert all == before + (if items[n].key != "" then {n} else {});
      assert n !in before;
    }
  }

  lemma OrderDistinct(items: seq<Item>)
    ensures forall i, j :: 0 <= i < j < |Order(items)| ==> Order(items)[i] != Order(items)[j]
  {
    OrderIsFirstOccurrence(items);
  }

  lemma FirstAtInit(items: seq<Item>, k: string, p: int)
    requires items != [] && FirstAt(items, k, p) && HasGroup(Init(items), k)
    ensures FirstAt(Init(items), k, p) && p < |items| - 1
  {
    var i :| InGroup(Init(items), k, i);
    assert InGroup(items, k, i);
    assert forall j :: InGroup(Init(items), k, j) ==> InGroup(items, k, j);
  }

  lemma FirstAtLast(items: seq<Item>, k: string, q: int)
    requires items != [] && FirstAt(items, k, q) && !HasGroup(Init(items), k)
    ensures q == |items| - 1
  {
    assert !InGroup(Init(items), k, q);
  }

  // -------------------------------------------------------------- the merge

  lemma ItemsGrow(articles: seq<Article>, key: string -> string, n: nat)
    requires n < |articles|
    ensures var items, a := Items(articles[..n + 1], key), articles[n];
            var before, k := Items(articles[..n], key), key(a.title);
            && Keyed(items) == Keyed(before) + (if k == "" then 0 else 1)
            && Order(items) == (if k == "" || k in Order(before) then Order(before) else Order(before) + [k])
            && (forall l :: l != k ==> Best(items, l) == Best(before, l) && Sources(items, l) == Sources(before, l))
            && Best(items, k) == (if Best(before, k) == 0 || a.stars > articles[Best(before, k) - 1].stars then n + 1
                                  else Best(before, k))
            && Sources(items, k) == (if Sources(before, k) == [] then [a.source]
                                     else if a.source == "" || a.source in Sources(before, k) then Sources(before, k)
                                     else Sources(before, k) + [a.source])
  {
    var items := Items(articles[..n + 1], key);
    assert Init(items) == Items(articles[..n], key) && Last(items) == ItemOf(articles[n], key);
  }

  ghost predicate IsBest(articles: seq<Article>, key: string -> string, n: nat, k: string, a: Article)
    requires n <= |articles|
  {
    var b := Best(Items(articles[..n], key), k);
    0 < b && a == articles[b - 1]
  }

  /** What the comparison of stars does to the survivors. */
  lemma BestGrows(articles: seq<Article>, key: string -> string, n: nat)
    requires n < |articles|
    ensures var a := articles[n];
            && (forall l, b: Article :: l != key(a.title) && IsBest(articles, key, n, l, b) ==>
                  IsBest(articles, key, n + 1, l, b))
            && (forall b: Article :: IsBest(articles, key, n, key(a.title), b) ==>
                  IsBest(articles, key, n + 1, key(a.title), if a.stars > b.stars then a else b))
            && (Best(Items(articles[..n], key), key(a.title)) == 0 ==> IsBest(articles, key, n + 1, key(a.title), a))
  {
    hide Best, Order, Sources, Keyed, Items;
    ItemsGrow(articles, key, n);
  }

  lemma MergeStart(articles: seq<Article>, key: string -> string)
    ensures Indexed(articles, key, 0, [], map[], 0)
  {
  }

  /** A group exists exactly when its title is listed. */
  lemma {:induction false} GroupListed(items: seq<Item>, k: string)
    ensures k != "" ==> (k in Order(items) <==> Best(items, k) != 0) && (k in Order(items) <==> Sources(items, k) != [])
    ensures "" !in Order(items)
  {
    if items != [] {
      GroupListed(Init(items), k);
    }
  }

  /** A later article of a group adds its source to the group's list and takes the
      group over, list included, when it has more stars. */
  method Join(existing: Article, a: Article) returns (winner: Article)
    requires existing.sources != null
    modifies existing.sources, a
    ensures existing.sources == old(existing.sources)
    ensures existing.sources.items == if a.source == "" || a.source in old(existing.sources.items)
                                      then old(existing.sources.items) else old(existing.sources.items) + [a.source]
    ensures winner == if a.stars > existing.stars then a else existing
    ensures a.sources == if a.stars > existing.stars then existing.sources else old(a.sources)
  {
    if a.source != "" && a.source !in existing.sources.items {
      existing.sources.items := existing.sources.items + [a.source];
    }
    winner := existing;
    if a.stars > existing.stars {
      a.sources := existing.sources;
      winner := a;
    }
  }

  /** The dictionary after the first `n` articles, as far as titles go. */
  ghost predicate Indexed(
    articles: seq<Article>, key: string -> string, n: nat, order: seq<string>, seen: map<string, Article>, dups: nat)
    requires n <= |articles|
  {
    && order == Order(Items(articles[..n], key)) && dups + |order| == Keyed(Items(articles[..n], key))
    && (forall k :: k in seen <==> k in order)
    && (forall k :: k in seen ==> key(seen[k].title) == k && IsBest(articles, key, n, k, seen[k]))
  }

  /** Each group owns one list object, and its survivor points to it. */
  ghost predicate Owned(seen: map<string, Article>, lists: map<string, SourceList>)
    reads seen.Values
  {
    && lists.Keys == seen.Keys
    && (forall k :: k in seen ==> seen[k].sources == lists[k])
    && (forall k, l :: k in lists && l in lists && k != l ==> lists[k] != lists[l])
  }

  lemma IndexGrows(
    articles: seq<Article>, key: string -> string, n: nat, order: seq<string>, seen: map<string, Article>, dups: nat)
    requires n < |articles| && Indexed(articles, key, n, order, seen, dups)
    ensures var a, k := articles[n], key(articles[n].title);
            if k == "" then Indexed(articles, key, n + 1, order, seen, dups)
            else if k !in seen then Indexed(articles, key, n + 1, order + [k], seen[k := a], dups)
            else
              var winner := if a.stars > seen[k].stars then a else seen[k];
              Indexed(articles, key, n + 1, order, seen[k := winner], dups + 1)
  {
    hide Order, Best, Sources, Keyed, Items, IsBest;
    ItemsGrow(articles, key, n);
    BestGrows(articles, key, n);
    GroupListed(Items(articles[..n], key), key(articles[n].title));
  }

  lemma IndexedKeys(
    articles: seq<Article>, key: string -> string, n: nat, k: string,
    order: seq<string>, seen: map<string, Article>, dups: nat)
    requires n <= |articles| && Indexed(articles, key, n, order, seen, dups)
    ensures forall l :: l in seen ==> key(seen[l].title) == l
    ensures k != "" ==> (k in seen <==> Sources(Items(articles[..n], key), k) != [])
    ensures "" !in seen
  {
    hide Order, Best, Sources, Keyed, Items, IsBest;
    GroupListed(Items(articles[..n], key), k);
    GroupListed(Items(articles[..n], key), "");
  }

  /** Every group's list holds the group's sources so far. */
  ghost predicate Listed(lists: map<string, SourceList>, items: seq<Item>)
    reads lists.Values
  {
    forall k :: k in lists ==> lists[k].items == Sources(items, k)
  }

  /** One more item of group `k`, as far as sources go. */
  predicate OneMore(before: seq<Item>, after: seq<Item>, k: string, source: string) {
    Sources(after, k) == if Sources(before, k) == [] then [source]
                         else if source == "" || source in Sources(before, k) then Sources(before, k)
                         else Sources(before, k) + [source]
  }

  ghost predicate OthersSame(before: seq<Item>, after: seq<Item>, k: string) {
    forall l :: l != k ==> Sources(after, l) == Sources(before, l)
  }

  /** One turn of the loop, for an article with a title to compare; `before` and
      `after` are the items without and with it. */
  method MergeOne(
    a: Article, k: string, order: seq<string>, seen: map<string, Article>, dups: nat,
    ghost lists: map<string, SourceList>, ghost before: seq<Item>, ghost after: seq<Item>)
    returns (order': seq<string>, seen': map<string, Article>, dups': nat, ghost lists': map<string, SourceList>)
    requires Owned(seen, lists) && forall l :: l in seen && l != k ==> seen[l] != a
    requires Listed(lists, before) && (k in lists <==> Sources(before, k) != [])
    requires OneMore(before, after, k, a.source) && OthersSame(before, after, k)
    modifies a, lists.Values
    ensures Owned(seen', lists') && Listed(lists', after)
    ensures k !in seen ==> order' == order + [k] && seen' == seen[k := a] && dups' == dups
    ensures k in seen ==>
              order' == order && dups' == dups + 1 && seen' == seen[k := if a.stars > seen[k].stars then a else seen[k]]
    ensures lists'.Keys == lists.Keys + {k} && forall l :: l in lists ==> lists'[l] == lists[l]
    ensures k !in lists ==> fresh(lists'[k])
  {
    hide Sources;
    order', seen', dups', lists' := order, seen, dups, lists;
    if k !in seen {
      var list := new SourceList(a.source);
      a.sources := list;
      seen', order' := seen[k := a], order + [k];
      lists' := lists[k := list];
    } else {
      dups' := dups + 1;
      var winner := Join(seen[k], a);
      seen' := seen[k := winner];
    }
  }

  lemma ListedStays(before: seq<Item>, after: seq<Item>, k: string, lists: map<string, SourceList>)
    requires Listed(lists, before) && OthersSame(before, after, k) && k !in lists
    ensures Listed(lists, after)
  {
  }

  /** The loop of `_dedup_articles`, with the list of every group as a ghost. */
  method Collect(articles: seq<Article>, key: string -> string)
    returns (order: seq<string>, seen: map<string, Article>, dups: nat, ghost lists: map<string, SourceList>)
    modifies articles
    ensures Indexed(articles, key, |articles|, order, seen, dups) && Owned(seen, lists)
    ensures Listed(lists, Items(articles[..|articles|], key))
    ensures forall a :: a in articles && key(a.title) == "" ==> a.sources == old(a.sources)
  {
    hide Order, Best, Sources, Keyed, Items, Indexed, Owned, Listed, OneMore, OthersSame;
    order, seen, dups, lists := [], map[], 0, map[];
    OwnedStart();
    ListedStart(articles, key);
    MergeStart(articles, key);
    for n := 0 to |articles|
      invariant Indexed(articles, key, n, order, seen, dups) && Owned(seen, lists) && lists.Keys == seen.Keys
      invariant Listed(lists, Items(articles[..n], key)) && forall k :: k in lists ==> fresh(lists[k])
      invariant forall a :: a in articles && key(a.title) == "" ==> a.sources == old(a.sources)
    {
      var a := articles[n];
      var k := key(a.title);
      ghost var before, after := Items(articles[..n], key), Items(articles[..n + 1], key);
      IndexGrows(articles, key, n, order, seen, dups);
      IndexedKeys(articles, key, n, k, order, seen, dups);
      SourcesGrow(articles, key, n);
      if k == "" {
        ListedStays(before, after, k, lists);
      } else {
        order, seen, dups, lists := MergeOne(a, k, order, seen, dups, lists, before, after);
      }
    }
  }

  lemma ListedStart(articles: seq<Article>, key: string -> string)
    ensures Listed(map[], Items(articles[..0], key))
  {
  }

  lemma OwnedStart()
    ensures Owned(map[], map[])
  {
  }

  lemma SourcesGrow(articles: seq<Article>, key: string -> string, n: nat)
    requires n < |articles|
    ensures var before, after, a := Items(articles[..n], key), Items(articles[..n + 1], key), articles[n];
            OneMore(before, after, key(a.title), a.source) && OthersSame(before, after, key(a.title))
  {
    hide Order, Best, Sources, Keyed, Items;
    ItemsGrow(articles, key, n);
  }

  /** `_dedup_articles`.  Articles may repeat in the input; survivors of a group
      share one list object with the articles they replaced. */
  method Dedup(articles: seq<Article>, key: string -> string) returns (out: seq<Article>, dups: nat)
    modifies articles
    ensures var items := Items(articles, key);
            && |out| + dups == Keyed(items)
            && |out| == |Order(items)|
            && forall i :: 0 <= i < |out| ==>
                 && 0 < Best(items, Order(items)[i]) && out[i] == articles[Best(items, Order(items)[i]) - 1]
                 && out[i].sources != null && out[i].sources.items == Sources(items, Order(items)[i])
    ensures forall a :: a in articles && key(a.title) == "" ==> a.sources == old(a.sources)
    ensures forall i, j :: 0 <= i < j < |out| ==> out[i] != out[j] && out[i].sources != out[j].sources
  {
    hide Order, Best, Sources, Keyed, Items, Indexed, Owned;
    var order, seen;
    ghost var lists;
    order, seen, dups, lists := Collect(articles, key);
    IndexMeans(articles, key, order, seen, dups);
    OwnedMeans(seen, lists);
    out := seq(|order|, i requires 0 <= i < |order| => seen[order[i]]);
    forall i, j | 0 <= i < j < |out|
      ensures out[i] != out[j] && out[i].sources != out[j].sources
    {
      assert order[i] != order[j];
    }
  }

  lemma OwnedMeans(seen: map<string, Article>, lists: map<string, SourceList>)
    requires Owned(seen, lists)
    ensures lists.Keys == seen.Keys && forall k :: k in seen ==> seen[k].sources == lists[k]
    ensures forall k, l :: k in seen && l in seen && k != l ==> seen[k].sources != seen[l].sources
  {
  }

  lemma IndexMeans(
    articles: seq<Article>, key: string -> string, order: seq<string>, seen: map<string, Article>, dups: nat)
    requires Indexed(articles, key, |articles|, order, seen, dups)
    ensures articles[..|articles|] == articles
    ensures var items := Items(articles, key);
            && order == Order(items) && dups + |order| == Keyed(items)
            && (forall k :: k in order ==>
                  k in seen && 0 < Best(items, k) && seen[k] == articles[Best(items, k) - 1])
    ensures forall i, j :: 0 <= i < j < |order| ==> order[i] != order[j]
  {
    hide Order, Best, Sources, Keyed, Items, IsBest;
    assert articles[..|articles|] == articles;
    OrderDistinct(Items(articles, key));
    forall k | k in order
      ensures 0 < Best(Items(articles, key), k) && seen[k] == articles[Best(Items(articles, key), k) - 1]
    {
      BestMeans(articles, key, k, seen[k]);
    }
  }

  lemma BestMeans(articles: seq<Article>, key: string -> string, k: string, a: Article)
    requires IsBest(articles, key, |articles|, k, a)
    ensures var b := Best(Items(articles, key), k);
            0 < b && a == articles[b - 1]
  {
    assert articles[..|articles|] == articles;
  }
}
