/** The vault panel of components/Vault.tsx: the filtered and ranked view
    of the records, and the import, export and favourite actions that write
    to the store. */
module VaultPanel {
  import opened Wrappers
  import opened Types
  import opened Seqs
  import opened Text
  import opened DbService

  /** The view comparator: favourites first, then higher score first.  A
      negative result puts `a` before `b`. */
  function Compare(a: VaultItem, b: VaultItem): (r: int)
    ensures a.isFavorite != b.isFavorite ==> (r < 0 <==> a.isFavorite) && r != 0
    ensures a.isFavorite == b.isFavorite ==>
              && (r < 0 <==> a.neuralPreferenceScore > b.neuralPreferenceScore)
              && (r == 0 <==> a.neuralPreferenceScore == b.neuralPreferenceScore)
  {
    if a.isFavorite != b.isFavorite then (if a.isFavorite then -1 else 1)
    else b.neuralPreferenceScore - a.neuralPreferenceScore
  }

  /** `a` must be shown before `b`. */
  predicate Outranks(a: VaultItem, b: VaultItem) {
    Compare(a, b) < 0
  }

  /** The comparator is a strict weak order: it ranks by the pair
      (favourite, score) and ties exactly the records equal on both. */
  lemma OutranksMeaning(a: VaultItem, b: VaultItem)
    ensures Outranks(a, b) <==>
              (a.isFavorite && !b.isFavorite)
              || (a.isFavorite == b.isFavorite && a.neuralPreferenceScore > b.neuralPreferenceScore)
    ensures Compare(a, b) == 0 <==>
              a.isFavorite == b.isFavorite && a.neuralPreferenceScore == b.neuralPreferenceScore
    ensures Outranks(a, b) ==> !Outranks(b, a)
  {
  }

  /** No record is outranked by a later one. */
  ghost predicate Ordered(s: seq<VaultItem>) {
    forall i, j :: 0 <= i < j < |s| ==> !Outranks(s[j], s[i])
  }

  /** Inserting `x` in front of every record that does not outrank it. */
  function Insert(x: VaultItem, s: seq<VaultItem>): (r: seq<VaultItem>)
    ensures multiset(r) == multiset(s) + multiset{x}
    ensures |r| == |s| + 1
  {
    if |s| == 0 then [x]
    else if Outranks(s[0], x) then
      assert s == [s[0]] + s[1..];
      [s[0]] + Insert(x, s[1..])
    else [x] + s
  }

  /** The stable sort `Array.prototype.sort` performs with `Compare`, as an
      insertion sort that keeps ties in input order. */
  function SortView(s: seq<VaultItem>): (r: seq<VaultItem>)
    ensures multiset(r) == multiset(s)
    ensures |r| == |s|
  {
    if |s| == 0 then []
    else
      assert s == [s[0]] + s[1..];
      Insert(s[0], SortView(s[1..]))
  }

  lemma {:induction false} InsertOrdered(x: VaultItem, s: seq<VaultItem>)
    requires Ordered(s)
    ensures Ordered(Insert(x, s))
    decreases |s|
  {
    if |s| > 0 {
      if Outranks(s[0], x) {
        InsertOrdered(x, s[1..]);
        var t := Insert(x, s[1..]);
        forall j | 0 <= j < |t| ensures !Outranks(t[j], s[0]) {
          assert t[j] in multiset(t);
          assert t[j] == x || t[j] in multiset(s[1..]);
          if t[j] != x {
            var k :| 0 <= k < |s[1..]| && s[1..][k] == t[j];
            assert s[k + 1] == t[j];
          }
        }
        OrderedCons(s[0], t);
      } else {
        forall j | 0 <= j < |s| ensures !Outranks(s[j], x) {
          if j > 0 { NotOutranksTrans(s[j], s[0], x); }
        }
        OrderedCons(x, s);
      }
    }
  }

  /** A head that no later record outranks extends an ordered list. */
  lemma OrderedCons(h: VaultItem, t: seq<VaultItem>)
    requires Ordered(t)
    requires forall j :: 0 <= j < |t| ==> !Outranks(t[j], h)
    ensures Ordered([h] + t)
  {
    var s := [h] + t;
    forall i, j | 0 <= i < j < |s| ensures !Outranks(s[j], s[i]) {
      assert s[j] == t[j - 1];
      if i > 0 { assert s[i] == t[i - 1]; }
    }
  }

  /** The view order: favourites before the rest, and scores not
      increasing within each group. */
  lemma {:induction false} SortViewOrdered(s: seq<VaultItem>)
    ensures Ordered(SortView(s))
    ensures forall i, j :: 0 <= i < j < |SortView(s)| && SortView(s)[j].isFavorite ==> SortView(s)[i].isFavorite
    ensures forall i, j :: 0 <= i < j < |SortView(s)| && SortView(s)[i].isFavorite == SortView(s)[j].isFavorite ==>
              SortView(s)[i].neuralPreferenceScore >= SortView(s)[j].neuralPreferenceScore
    decreases |s|
  {
    if |s| > 0 {
      SortViewOrdered(s[1..]);
      InsertOrdered(s[0], SortView(s[1..]));
    }
  }

  /** Ranking is transitive through ties: what does not outrank `b`
      does not outrank anything `b` does not outrank. */
  lemma NotOutranksTrans(a: VaultItem, b: VaultItem, c: VaultItem)
    requires !Outranks(a, b) && !Outranks(b, c)
    ensures !Outranks(a, c)
  {
  }

  /** Inserting in front of a list whose head does not outrank `x`. */
  lemma InsertAtFront(x: VaultItem, u: seq<VaultItem>)
    requires |u| == 0 || !Outranks(u[0], x)
    ensures Insert(x, u) == [x] + u
  {
  }

  /** Inserting behind a head that outranks `x`. */
  lemma InsertBehind(x: VaultItem, y: VaultItem, u: seq<VaultItem>)
    requires Outranks(y, x)
    ensures Insert(x, [y] + u) == [y] + Insert(x, u)
  {
  }

  /** Filtering after an insertion into an ordered list is inserting into
      the filtered list. */
  lemma {:induction false} FilterInsert(x: VaultItem, s: seq<VaultItem>, p: VaultItem -> bool)
    requires Ordered(s)
    ensures Filter(Insert(x, s), p) == if p(x) then Insert(x, Filter(s, p)) else Filter(s, p)
    decreases |s|
  {
    if |s| == 0 {
      assert Insert(x, s) == [x];
      assert Filter([x], p) == if p(x) then [x] else [];
    } else {
      var y, rest := s[0], s[1..];
      assert s == [y] + rest;
      FilterAppend([y], rest, p);
      assert Filter([y], p) == if p(y) then [y] else [];
      assert Filter([x], p) == if p(x) then [x] else [];
      if Outranks(y, x) {
        assert Ordered(rest);
        FilterInsert(x, rest, p);
        var t := Insert(x, rest);
        assert Insert(x, s) == [y] + t;
        FilterAppend([y], t, p);
        if p(x) && p(y) {
          InsertBehind(x, y, Filter(rest, p));
        }
      } else {
        assert Insert(x, s) == [x] + s;
        FilterAppend([x], s, p);
        if p(x) {
          var u := Filter(s, p);
          if |u| > 0 {
            assert u[0] in u;
            FilterMembers(s, p);
            var k :| 0 <= k < |s| && s[k] == u[0];
            if k > 0 {
              assert !Outranks(s[k], y);
              NotOutranksTrans(s[k], y, x);
            }
          }
          InsertAtFront(x, u);
        }
      }
    }
  }

  /** Sorting and filtering commute: the stable sort keeps the relative
      order of any subset. */
  lemma {:induction false} FilterSortView(s: seq<VaultItem>, p: VaultItem -> bool)
    ensures Filter(SortView(s), p) == SortView(Filter(s, p))
    decreases |s|
  {
    if |s| > 0 {
      SortViewOrdered(s[1..]);
      FilterInsert(s[0], SortView(s[1..]), p);
      FilterSortView(s[1..], p);
      assert s == [s[0]] + s[1..];
      FilterAppend([s[0]], s[1..], p);
    }
  }

  /** Records tied on both keys. */
  predicate AllTied(s: seq<VaultItem>) {
    forall i, j :: 0 <= i < |s| && 0 <= j < |s| ==> Compare(s[i], s[j]) == 0
  }

  /** A list of tied records is already in view order. */
  lemma {:induction false} SortTiedIsIdentity(s: seq<VaultItem>)
    requires AllTied(s)
    ensures SortView(s) == s
    decreases |s|
  {
    if |s| > 0 {
      assert AllTied(s[1..]) by {
        forall i, j | 0 <= i < |s[1..]| && 0 <= j < |s[1..]| ensures Compare(s[1..][i], s[1..][j]) == 0 {
          assert s[1..][i] == s[i + 1] && s[1..][j] == s[j + 1];
        }
      }
      SortTiedIsIdentity(s[1..]);
      if |s| > 1 {
        assert Compare(s[1], s[0]) == 0;
      }
    }
  }

  /** The records whose favourite flag and score equal the given ones. */
  function HasKey(fav: bool, score: int): VaultItem -> bool {
    (v: VaultItem) => v.isFavorite == fav && v.neuralPreferenceScore == score
  }

  /** The records the view keeps for a filter: one domain, or every record
      for ALL. */
  function InFilter(f: DomainFilter): VaultItem -> bool {
    (v: VaultItem) => f.All? || v.vaultDomain == f.domain
  }

  /** `filteredItems`: the records of the filter, favourites first, then by
      score, ties in input order. */
  function View(items: seq<VaultItem>, f: DomainFilter): (r: seq<VaultItem>)
    ensures |r| <= |items|
    ensures forall v :: v in r ==> v in items && (f.All? || v.vaultDomain == f.domain)
  {
    var s := Filter(items, InFilter(f));
    FilterMembers(items, InFilter(f));
    var r := SortView(s);
    assert forall v :: v in r ==> v in s by {
      forall v | v in r ensures v in s {
        assert v in multiset(r);
      }
    }
    r
  }

  /** The view holds exactly the records of the chosen domain (all for ALL),
      each as often as in the input, and no other. */
  lemma ViewContents(items: seq<VaultItem>, f: DomainFilter)
    ensures multiset(View(items, f)) == multiset(Filter(items, InFilter(f)))
    ensures forall v :: v in View(items, f) <==> v in items && (f.All? || v.vaultDomain == f.domain)
  {
    var s := Filter(items, InFilter(f));
    FilterMembers(items, InFilter(f));
    forall v ensures v in View(items, f) <==> v in s {
      calc {
        v in View(items, f);
        v in multiset(View(items, f));
        v in multiset(s);
        v in s;
      }
    }
  }

  /** The view is ranked: favourites first, then score descending. */
  lemma ViewRanked(items: seq<VaultItem>, f: DomainFilter)
    ensures forall i, j :: 0 <= i < j < |View(items, f)| && View(items, f)[j].isFavorite ==> View(items, f)[i].isFavorite
    ensures forall i, j :: 0 <= i < j < |View(items, f)| && View(items, f)[i].isFavorite == View(items, f)[j].isFavorite ==>
              View(items, f)[i].neuralPreferenceScore >= View(items, f)[j].neuralPreferenceScore
  {
    SortViewOrdered(Filter(items, InFilter(f)));
  }

  /** Records with equal favourite flag and score appear in the view in
      their input order. */
  lemma ViewStable(items: seq<VaultItem>, f: DomainFilter, fav: bool, score: int)
    ensures Filter(View(items, f), HasKey(fav, score)) == Filter(Filter(items, InFilter(f)), HasKey(fav, score))
  {
    var s := Filter(items, InFilter(f));
    FilterSortView(s, HasKey(fav, score));
    var t := Filter(s, HasKey(fav, score));
    FilterMembers(s, HasKey(fav, score));
    assert AllTied(t) by {
      forall i, j | 0 <= i < |t| && 0 <= j < |t| ensures Compare(t[i], t[j]) == 0 {
        assert t[i] in t && t[j] in t;
      }
    }
    SortTiedIsIdentity(t);
  }

  /** A one-domain view lists its records in the same relative order as the
      ALL view does. */
  lemma DomainViewIsSubsequence(items: seq<VaultItem>, d: VaultDomain)
    ensures View(items, Only(d)) == Filter(View(items, All), InFilter(Only(d)))
  {
    FilterAll(items, InFilter(All));
    FilterSortView(items, InFilter(Only(d)));
  }

  /** The ordering example: A (not favourite, 80), B (favourite, 10) and
      C (not favourite, 80) are shown as B, A, C. */
  lemma ViewExample(a: VaultItem, b: VaultItem, c: VaultItem)
    requires !a.isFavorite && a.neuralPreferenceScore == 80
    requires b.isFavorite && b.neuralPreferenceScore == 10
    requires !c.isFavorite && c.neuralPreferenceScore == 80
    ensures View([a, b, c], All) == [b, a, c]
  {
    FilterAll([a, b, c], InFilter(All));
    SortExample(a, b, c);
  }

  lemma SortExample(a: VaultItem, b: VaultItem, c: VaultItem)
    requires !a.isFavorite && a.neuralPreferenceScore == 80
    requires b.isFavorite && b.neuralPreferenceScore == 10
    requires !c.isFavorite && c.neuralPreferenceScore == 80
    ensures SortView([a, b, c]) == [b, a, c]
  {
    SortPair(b, c);
    assert SortView([a, b, c]) == Insert(a, SortView([b, c])) by {
      assert [a, b, c][1..] == [b, c];
    }
    InsertBehind(a, b, [c]);
    InsertAtFront(a, [c]);
  }

  /** Two records of which the second does not outrank the first stay in
      their order. */
  lemma SortPair(b: VaultItem, c: VaultItem)
    requires !Outranks(c, b)
    ensures SortView([b, c]) == [b, c]
  {
    assert [b, c][1..] == [c];
    assert SortView([c]) == [c];
    InsertAtFront(b, [c]);
  }

  /** What `JSON.parse` of the chosen file produced. */
  datatype ParsedDoc = JsonArray(items: seq<VaultItem>) | JsonOther | Malformed

  const ParseFailure: string := "Failed to parse vault file."

  /** The alert after a merge of `n` records. */
  function MergedMessage(n: nat): string {
    Decimal(n) + " nodes successfully merged."
  }

  /** The count in the merge alert reads back as the number of records. */
  lemma MergedCountReadsBack(n: nat)
    ensures |MergedMessage(n)| > 27
    ensures var m := MergedMessage(n); ParseDecimal(m[..|m| - 27]) == n
  {
    var m := MergedMessage(n);
    assert m[..|m| - 27] == Decimal(n);
    DecimalRoundTrip(n);
  }

  /** `handleExport`: the document holds the current records as they are. */
  function ExportDocument(items: seq<VaultItem>): (d: ParsedDoc)
    ensures d.JsonArray? && d.items == items
  {
    JsonArray(items)
  }

  /** Exporting the records of a store and importing the document again
      overwrites each id with identical content, and importing it into an
      empty store rebuilds the store. */
  lemma ExportReimport(m: map<string, VaultItem>, items: seq<VaultItem>)
    requires Listing(items, m)
    ensures ExportDocument(items).JsonArray?
    ensures PutAll(m, ExportDocument(items).items) == m
    ensures PutAll(map[], ExportDocument(items).items) == m
  {
    PutAllRedundant(m, items);
    PutAllRebuilds(m, items);
  }

  /** `handleImport`: only an array is merged, by bulk put, and reported by
      its length; anything else that parses is ignored; a parse failure
      writes nothing and reports the failure.  `doc` is `None` when no file
      was chosen. */
  method HandleImport(store: VaultStore, doc: Option<ParsedDoc>) returns (alert: Option<string>, refreshed: Option<seq<VaultItem>>)
    requires store.Valid()
    modifies store
    ensures store.Valid()
    ensures doc.Some? && doc.value.JsonArray? ==>
              store.nodes == PutAll(old(store.nodes), doc.value.items)
              && alert == Some(MergedMessage(|doc.value.items|))
    ensures refreshed.Some? <==> doc.Some? && doc.value.JsonArray?
    ensures refreshed.Some? ==> Listing(refreshed.value, store.nodes)
    ensures doc.None? || !doc.value.JsonArray? ==> store.nodes == old(store.nodes)
    ensures doc.None? || doc.value.JsonOther? ==> alert == None
    ensures doc.Some? && doc.value.Malformed? ==> alert == Some(ParseFailure)
  {
    alert, refreshed := None, None;
    if doc.Some? {
      match doc.value
      case JsonArray(items) =>
        store.BulkSaveNodes(items);
        var listing := store.GetAllNodes();
        refreshed := Some(listing);
        alert := Some(MergedMessage(|items|));
      case JsonOther =>
      case Malformed =>
        alert := Some(ParseFailure);
    }
  }

  /** `handleToggleFavorite`: toggles, then refreshes the list.  When the
      toggle rejects, the rejection propagates and no refresh happens. */
  method HandleToggleFavorite(store: VaultStore, id: string) returns (refreshed: Option<seq<VaultItem>>)
    requires store.Valid()
    modifies store
    ensures store.Valid()
    ensures id in old(store.nodes) ==> store.nodes == old(store.nodes)[id := Toggled(old(store.nodes)[id])]
    ensures id !in old(store.nodes) ==> store.nodes == old(store.nodes)
    ensures refreshed.Some? <==> id in old(store.nodes)
    ensures refreshed.Some? ==> Listing(refreshed.value, store.nodes)
  {
    var r := store.ToggleFavoriteNode(id);
    if r.Ok? {
      var items := store.GetAllNodes();
      refreshed := Some(items);
    } else {
      refreshed := None;
    }
  }
}
