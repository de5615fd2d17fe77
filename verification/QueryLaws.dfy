/** What a list request means to the one who sends it: which products match, in
    which order, and which window of them a page shows. */
module QueryLaws {
  import opened Domain
  import opened Catalog
  import opened Paging
  import opened PublicReads
  import opened ListQuery

  // ------------------------------------------------------------------ search

  /** The same letter, capital or not. */
  predicate SameLetter(a: char, b: char) {
    || a == b
    || ('A' <= a <= 'Z' && b as int == a as int + 32)
    || ('A' <= b <= 'Z' && a as int == b as int + 32)
  }

  predicate SameLetters(a: string, b: string) { |a| == |b| && forall i | 0 <= i < |a| :: SameLetter(a[i], b[i]) }

  predicate OccursAt(text: string, part: string, i: nat) {
    i + |part| <= |text| && SameLetters(text[i..i + |part|], part)
  }

  ghost predicate Occurs(text: string, part: string) { exists i: nat :: OccursAt(text, part, i) }

  predicate WildcardFree(s: string) { '%' !in s && '_' !in s && '\\' !in s }

  lemma LowerSame(a: char, b: char)
    ensures Lower(a) == Lower(b) <==> SameLetter(a, b)
  {
  }

  lemma {:induction false} PercentMatchesAll(text: string)
    ensures ILike(text, "%")
    decreases |text|
  {
    assert "%"[1..] == "";
    if text != "" { PercentMatchesAll(text[1..]); } else { assert ILike("", ""); }
  }

  lemma {:induction false} StartMatches(text: string, part: string)
    requires WildcardFree(part)
    ensures ILike(text, part + "%") <==> OccursAt(text, part, 0)
    decreases |part|
  {
    if part == "" {
      assert part + "%" == "%";
      PercentMatchesAll(text);
      assert text[0..0] == "";
    } else {
      var first, rest := part[0], part[1..];
      assert first in part;
      assert (part + "%")[0] == first && (part + "%")[1..] == rest + "%";
      if text != "" {
        LowerSame(text[0], first);
        StartMatches(text[1..], rest);
        StartStep(text, part);
      }
    }
  }

  lemma StartStep(text: string, part: string)
    requires text != "" && part != ""
    ensures OccursAt(text, part, 0) <==> SameLetter(text[0], part[0]) && OccursAt(text[1..], part[1..], 0)
  {
    if |part| <= |text| {
      var a, b := text[0..|part|], text[1..][0..|part| - 1];
      assert a == [text[0]] + b && part == [part[0]] + part[1..];
      if SameLetters(a, part) {
        forall i | 0 <= i < |b|
          ensures SameLetter(b[i], part[1..][i])
        {
          assert SameLetter(a[i + 1], part[i + 1]);
        }
      }
    }
  }

  lemma {:induction false} AnywhereMatches(text: string, part: string)
    requires WildcardFree(part)
    ensures ILike(text, "%" + (part + "%")) <==> Occurs(text, part)
    decreases |text|
  {
    var pattern := "%" + (part + "%");
    assert pattern[0] == '%' && pattern[1..] == part + "%";
    StartMatches(text, part);
    if text != "" {
      AnywhereMatches(text[1..], part);
      if Occurs(text[1..], part) {
        var i: nat :| OccursAt(text[1..], part, i);
        assert text[1..][i..i + |part|] == text[i + 1..i + 1 + |part|];
        assert OccursAt(text, part, i + 1);
      }
      if Occurs(text, part) && !OccursAt(text, part, 0) {
        var i: nat :| OccursAt(text, part, i);
        assert text[1..][i - 1..i - 1 + |part|] == text[i..i + |part|];
        assert OccursAt(text[1..], part, i - 1);
      }
    } else if Occurs(text, part) {
      var i: nat :| OccursAt(text, part, i);
      assert i == 0;
    }
  }

  /** A list request matches exactly the products on sale whose category has the name
      asked for, if one is, and whose name contains the search text, if there is
      one, capitals or not. */
  lemma MatchesExactly(db: State, f: ProductFilters, id: nat)
    requires WildcardFree(f.search)
    ensures Selects(db, Asked(f).category, Asked(f).like, id) <==>
      && id in db.products && db.products[id].status == Active
      && (f.category != "" ==>
            exists c :: c in db.categories && db.products[id].category == Some(c)
                && db.categories[c].name == f.category)
      && (f.search != "" ==> Occurs(db.products[id].name, f.search))
  {
    if f.search != "" && id in db.products {
      AnywhereMatches(db.products[id].name, f.search);
      assert "%" + f.search + "%" == "%" + (f.search + "%");
    }
  }

  // ------------------------------------------------------------------- window

  /** Page p of size limit starts after the p - 1 pages before it. */
  lemma PageStarts(f: ProductFilters)
    requires GoInts(f) && f.page >= 1 && f.limit > 0 && IsInt64((f.page - 1) * f.limit)
    ensures Asked(f).offset == (f.page - 1) * f.limit && Asked(f).limit == f.limit
  {
    assert Wrap(f.page - 1) == f.page - 1;
    assert (f.page - 1) * f.limit >= 0;
  }

  /** No page, or a page before the first, is the first page; no size is 20; a
      negative size is refused by the database. */
  lemma PageDefaults(f: ProductFilters)
    requires GoInts(f)
    ensures f.limit == 0 ==> Asked(f).limit == 20
    ensures f.page <= 0 <= f.limit && IsInt64(f.page - 1) && IsInt64((f.page - 1) * Asked(f).limit) ==>
            Asked(f).offset == 0
    ensures f.limit < 0 ==> forall db, page :: !FindAll(db, Asked(f), page)
  {
    var limit := Asked(f).limit;
    if f.page <= 0 <= f.limit && IsInt64(f.page - 1) && IsInt64((f.page - 1) * limit) {
      assert Wrap(f.page - 1) == f.page - 1;
      NotPositive(f.page - 1, limit);
    }
  }

  lemma NotPositive(a: int, b: int)
    requires a <= 0 <= b
    ensures a * b <= 0
  {
  }

  function Window(ids: seq<nat>, f: ProductFilters): seq<nat> {
    var q := Asked(f);
    if q.limit >= 0 && q.offset >= 0 then Page(ids, q.limit, q.offset) else []
  }

  /** The windows of pages 1 to n of one size, one after the other. */
  function Windows(ids: seq<nat>, f: ProductFilters, n: nat): seq<nat> {
    if n == 0 then [] else Windows(ids, f, n - 1) + Window(ids, f.(page := n))
  }

  lemma WindowOfPage(ids: seq<nat>, f: ProductFilters, n: nat, offset: nat)
    requires IsInt64(f.limit) && f.limit > 0 && IsInt64(n) && n > 0 && offset == (n - 1) * f.limit && IsInt64(offset)
    ensures Window(ids, f.(page := n)) == Page(ids, f.limit, offset)
  {
    PageStarts(f.(page := n));
  }

  /** Over one order of the matches, pages 1 to n show its first n * limit rows, each
      once, in order. */
  lemma {:induction false} WindowsArePrefix(ids: seq<nat>, f: ProductFilters, n: nat, shown: nat)
    requires IsInt64(f.limit) && f.limit > 0 && IsInt64(n) && shown == n * f.limit && IsInt64(shown)
    ensures Windows(ids, f, n) == Pages(ids, f.limit, n) == ids[..Min(shown, |ids|)]
  {
    PagesArePrefix(ids, f.limit, n);
    if n > 0 {
      OneMorePage(f.limit, n);
      var offset := (n - 1) * f.limit;
      WindowsArePrefix(ids, f, n - 1, offset);
      WindowOfPage(ids, f, n, offset);
    }
  }

  // -------------------------------------------------------------------- order

  predicate Blank(s: string) { forall c | c in s :: IsSpace(c) }

  /** The word `asc`, capitals or not, blanks around it or not. */
  ghost predicate SaysAscending(order: string) {
    exists a: nat, b: nat :: SaysAscendingAt(order, a, b)
  }

  predicate SaysAscendingAt(order: string, a: nat, b: nat) {
    a <= b <= |order| && Blank(order[..a]) && SameLetters(order[a..b], "asc") && Blank(order[b..])
  }

  lemma UpperSame(s: string)
    ensures Upper(s) == "ASC" <==> SameLetters(s, "asc")
  {
    if |s| == 3 {
      assert s == [s[0], s[1], s[2]];
      assert s[1..] == [s[1], s[2]] && s[1..][1..] == [s[2]] && s[1..][1..][1..] == "";
      UpperLetters(s);
      assert Upper(s) == "ASC" <==> Upper(s)[0] == 'A' && Upper(s)[1] == 'S' && Upper(s)[2] == 'C';
    } else {
      UpperLetters(s);
    }
  }

  lemma {:induction false} UpperLetters(s: string)
    ensures |Upper(s)| == |s|
    ensures forall i | 0 <= i < |s| :: Upper(s)[i] == if 'a' <= s[i] <= 'z' then (s[i] as int - 32) as char else s[i]
  {
    if s != "" { UpperLetters(s[1..]); }
  }

  /** What is left after trimming, and what was taken off. */
  lemma {:induction false} TrimSplits(s: string) returns (a: nat, b: nat)
    ensures a <= b <= |s| && Trim(s) == s[a..b] && Blank(s[..a]) && Blank(s[b..])
    decreases |s|
  {
    if s != "" && IsSpace(s[0]) {
      a, b := TrimSplits(s[1..]);
      assert s[1..][a..b] == s[a + 1..b + 1] && s[..a + 1] == [s[0]] + s[1..][..a] && s[1..][b..] == s[b + 1..];
      a, b := a + 1, b + 1;
    } else if s != "" && IsSpace(s[|s| - 1]) {
      var front := s[..|s| - 1];
      a, b := TrimSplits(front);
      assert front[a..b] == s[a..b] && front[..a] == s[..a] && s[b..] == front[b..] + [s[|s| - 1]];
    } else {
      a, b := 0, |s|;
      assert s[0..|s|] == s;
    }
  }

  /** A text without blanks at its ends is what trimming leaves of it. */
  lemma {:induction false} TrimFinds(s: string, a: nat, b: nat)
    requires a < b <= |s| && Blank(s[..a]) && Blank(s[b..]) && !IsSpace(s[a]) && !IsSpace(s[b - 1])
    ensures Trim(s) == s[a..b]
    decreases |s|
  {
    if a > 0 {
      assert s[0] in s[..a];
      assert s[1..][..a - 1] == s[1..a] && s[1..][b - 1..] == s[b..] && s[1..][a - 1..b - 1] == s[a..b];
      assert forall c | c in s[1..a] :: c in s[..a];
      TrimFinds(s[1..], a - 1, b - 1);
    } else if b < |s| {
      var front := s[..|s| - 1];
      assert s[|s| - 1] in s[b..];
      assert front[..a] == s[..a] && front[b..] == s[b..|s| - 1] && front[a..b] == s[a..b];
      assert forall c | c in s[b..|s| - 1] :: c in s[b..];
      TrimFinds(front, a, b);
    } else {
      assert s[0..|s|] == s;
    }
  }

  /** The list ascends exactly when the order says `asc`; anything else descends. */
  lemma AscendsExactly(f: ProductFilters)
    ensures !Asked(f).descending <==> SaysAscending(f.order)
  {
    UpperSame(Trim(f.order));
    var a, b := TrimSplits(f.order);
    if SameLetters(Trim(f.order), "asc") { assert SaysAscendingAt(f.order, a, b); }
    if SaysAscending(f.order) {
      var i: nat, j: nat :| SaysAscendingAt(f.order, i, j);
      var word := f.order[i..j];
      assert SameLetter(word[0], 'a') && SameLetter(word[2], 'c');
      TrimFinds(f.order, i, j);
    }
  }

  /** One text sorts before another: at the first place where they differ, or by
      ending there. */
  predicate DiffersFirstAt(a: string, b: string, k: nat) {
    && k <= |a| && k < |b| && a[..k] == b[..k]
    && (k < |a| ==> a[k] < b[k])
  }

  lemma {:induction false} TextOrder(a: string, b: string)
    ensures TextBefore(a, b) <==> exists k: nat :: DiffersFirstAt(a, b, k)
    decreases |a|
  {
    if TextBefore(a, b) {
      if a == "" || a[0] < b[0] {
        assert DiffersFirstAt(a, b, 0);
      } else {
        TextOrder(a[1..], b[1..]);
        var k: nat :| DiffersFirstAt(a[1..], b[1..], k);
        assert a[..k + 1] == [a[0]] + a[1..][..k] && b[..k + 1] == [b[0]] + b[1..][..k];
        assert DiffersFirstAt(a, b, k + 1);
      }
    }
    if k: nat :| DiffersFirstAt(a, b, k) {
      if k > 0 {
        assert a[..k][0] == b[..k][0] && a[1..][..k - 1] == a[..k][1..] && b[1..][..k - 1] == b[..k][1..];
        assert DiffersFirstAt(a[1..], b[1..], k - 1);
        TextOrder(a[1..], b[1..]);
      }
    }
  }

  /** a is not after b in the order that was asked for. */
  predicate InOrder(products: map<nat, Product>, f: ProductFilters, descending: bool, a: PublicProduct,
      b: PublicProduct)
    requires a.id in products && b.id in products
  {
    if f.sortBy == "price" then (if descending then a.cents >= b.cents else a.cents <= b.cents)
    else if f.sortBy == "id" then (if descending then a.id > b.id else a.id < b.id)
    else if f.sortBy == "name" then (if descending then !TextBefore(a.name, b.name) else !TextBefore(b.name, a.name))
    else if descending then products[a.id].createdAt >= products[b.id].createdAt
    else products[a.id].createdAt <= products[b.id].createdAt
  }

  lemma RowsInOrder(db: State, f: ProductFilters, a: nat, b: nat)
    requires a in db.products && b in db.products && a != b
    requires var q := Asked(f);
      !(if q.descending then ColumnBefore(db.products, q.column, a, b) else ColumnBefore(db.products, q.column, b, a))
    ensures InOrder(db.products, f, Asked(f).descending,
                    PublicRow(db.categories, a, db.products[a]), PublicRow(db.categories, b, db.products[b]))
  {
  }

  lemma RowOnPage(db: State, q: Query, ids: seq<nat>, page: seq<PublicProduct>, i: nat)
    requires q.limit >= 0 && q.offset >= 0 && IsPageOf(db, q, ids, page) && i < |page|
    ensures Min(q.offset, |ids|) + i < |ids|
    ensures var id := ids[Min(q.offset, |ids|) + i];
      id in db.products && page[i] == PublicRow(db.categories, id, db.products[id])
  {
    assert Page(ids, q.limit, q.offset)[i] == ids[Min(q.offset, |ids|) + i];
  }

  lemma PairInOrder(db: State, f: ProductFilters, ids: seq<nat>, page: seq<PublicProduct>, i: nat, j: nat)
    requires Asked(f).limit >= 0 && Asked(f).offset >= 0 && IsPageOf(db, Asked(f), ids, page) && i < j < |page|
    ensures page[i].id in db.products && page[j].id in db.products && page[i].id != page[j].id
    ensures InOrder(db.products, f, Asked(f).descending, page[i], page[j])
  {
    RowOnPage(db, Asked(f), ids, page, i);
    RowOnPage(db, Asked(f), ids, page, j);
    var first := Min(Asked(f).offset, |ids|);
    RowsInOrder(db, f, ids[first + i], ids[first + j]);
  }

  /** Every page is sorted by the column asked for, by creation time when none or an
      unknown one is, in the direction asked for, and shows each product once. */
  lemma PageIsSorted(db: State, f: ProductFilters, page: seq<PublicProduct>)
    requires FindAll(db, Asked(f), page)
    ensures forall i | 0 <= i < |page| :: page[i].id in db.products
    ensures forall i, j | 0 <= i < j < |page| ::
      page[i].id != page[j].id && InOrder(db.products, f, Asked(f).descending, page[i], page[j])
  {
    var ids: seq<nat> :| IsPageOf(db, Asked(f), ids, page);
    forall i | 0 <= i < |page|
      ensures page[i].id in db.products
    {
      RowOnPage(db, Asked(f), ids, page, i);
    }
    forall i, j | 0 <= i < j < |page|
      ensures page[i].id != page[j].id && InOrder(db.products, f, Asked(f).descending, page[i], page[j])
    {
      PairInOrder(db, f, ids, page, i, j);
    }
  }

  /** And it is a page of products that match: nothing else is on it, and with room
      for all of them they are all on it. */
  lemma PageIsMatches(db: State, f: ProductFilters, page: seq<PublicProduct>)
    requires FindAll(db, Asked(f), page)
    ensures forall i | 0 <= i < |page| :: Selects(db, Asked(f).category, Asked(f).like, page[i].id)
    ensures Asked(f).offset == 0 && Asked(f).limit >= Count(db, Asked(f)) ==>
      forall id: nat | Selects(db, Asked(f).category, Asked(f).like, id) :: exists i ::
          0 <= i < |page| && page[i].id == id
  {
    var ids: seq<nat> :| IsPageOf(db, Asked(f), ids, page);
    OnlyMatches(db, Asked(f), ids, page);
    if Asked(f).offset == 0 && Asked(f).limit >= Count(db, Asked(f)) { AllMatches(db, Asked(f), ids, page); }
  }

  lemma OnlyMatches(db: State, q: Query, ids: seq<nat>, page: seq<PublicProduct>)
    requires q.limit >= 0 && q.offset >= 0 && IsPageOf(db, q, ids, page)
    ensures forall i | 0 <= i < |page| :: Selects(db, q.category, q.like, page[i].id)
  {
    forall i | 0 <= i < |page|
      ensures Selects(db, q.category, q.like, page[i].id)
    {
      RowOnPage(db, q, ids, page, i);
      assert ids[Min(q.offset, |ids|) + i] in Selected(db, q.category, q.like);
    }
  }

  lemma AllMatches(db: State, q: Query, ids: seq<nat>, page: seq<PublicProduct>)
    requires q.limit >= 0 && q.offset == 0 && IsPageOf(db, q, ids, page) && q.limit >= Count(db, q)
    ensures forall id: nat | Selects(db, q.category, q.like, id) :: exists i :: 0 <= i < |page| && page[i].id == id
  {
    DistinctCount(ids, Selected(db, q.category, q.like));
    assert |page| == |ids|;
    forall id: nat | Selects(db, q.category, q.like, id)
      ensures exists i :: 0 <= i < |page| && page[i].id == id
    {
      assert id in Selected(db, q.category, q.like);
      var i :| 0 <= i < |ids| && ids[i] == id;
      RowOnPage(db, q, ids, page, i);
      assert page[i].id == id;
    }
  }

  // ------------------------------------------------------ the operator's list

  /** The operator's list has the rows of the status asked for, or all, the newest
      first and the higher id first among those created together. */
  lemma OperatorsOrder(products: map<nat, Product>, status: Option<ProductStatus>, ids: seq<nat>)
    requires IsListing(products, Matching(products, status), ids)
    ensures forall id: nat :: id in ids <==> id in products && (status.Some? ==> products[id].status == status.value)
    ensures forall i, j | 0 <= i < j < |ids| ::
      && ids[i] in products && ids[j] in products
      && products[ids[i]].createdAt >= products[ids[j]].createdAt
      && (products[ids[i]].createdAt == products[ids[j]].createdAt ==> ids[i] > ids[j])
  {
  }
}
