/** The client's booking list page by page, and the page parameter in the URL. */
module Paging {
  import opened Text

  const PAGE_SIZE: nat := 10
  const MAX_SAFE: nat := 9_007_199_254_740_991

  datatype RawParam = Absent | Repeated(values: seq<string>) | Single(value: string)

  predicate IsDecimalString(s: string) {
    forall i | 0 <= i < |s| :: '0' <= s[i] <= '9'
  }

  /** A canonical positive decimal of at most 16 characters within the safe integers; 1 for anything else. */
  function ParsePage(raw: RawParam): (page: nat)
    ensures 1 <= page <= MAX_SAFE
  {
    if !raw.Single? then 1
    else if raw.value == "" || !IsDecimalString(raw.value) || raw.value[0] == '0' then 1
    else if |raw.value| > 16 || Value(raw.value) > MAX_SAFE then 1
    else ValuePositive(raw.value); Value(raw.value)
  }

  lemma {:induction false} ValuePositive(s: string)
    requires s != "" && IsDecimalString(s) && s[0] != '0'
    ensures Value(s) >= 1
  {
    if |s| > 1 {
      ValuePositive(s[..|s| - 1]);
    } else {
      assert s[..0] == [];
    }
  }

  lemma {:induction false} DecimalFits(n: nat, w: nat)
    requires w > 0 && n < Pow10(w)
    ensures |Decimal(n)| <= w
    decreases w
  {
    if n >= 10 {
      assert Pow10(1) == 10 * Pow10(0);
      DecimalFits(n / 10, w - 1);
    }
  }

  lemma SixteenDigits()
    ensures MAX_SAFE < Pow10(16)
  {
    assert Pow10(4) == 10 * (10 * (10 * (10 * Pow10(0))));
    assert Pow10(8) == 10 * (10 * (10 * (10 * Pow10(4))));
    assert Pow10(12) == 10 * (10 * (10 * (10 * Pow10(8))));
    assert Pow10(16) == 10 * (10 * (10 * (10 * Pow10(12))));
  }

  /** Printing a page number and parsing it back is the identity on 1 to 2^53 - 1. */
  lemma ParserInvertsPrinting(n: nat)
    requires 1 <= n <= MAX_SAFE
    ensures ParsePage(Single(Decimal(n))) == n
  {
    SixteenDigits();
    DecimalFits(n, 16);
    ValueOfDecimal(n);
  }

  /** A parameter that parses as any page but the first is that page's printed form; all others parse as page 1. */
  lemma OnlyPrintedPagesParse(raw: RawParam)
    ensures ParsePage(raw) != 1 ==> raw == Single(Decimal(ParsePage(raw)))
  {
    if ParsePage(raw) != 1 && raw.Single? {
      DecimalOfValue(raw.value);
    }
  }

  // ---------------------------------------------------------------- pages of an unchanging list

  datatype Listing<T> = Redirect | Page(items: seq<T>, page: nat, hasNext: bool)

  /** `skip` and `take` of the query. */
  function Slice<T>(list: seq<T>, skip: nat, take: nat): (rows: seq<T>) {
    if skip >= |list| then [] else if skip + take >= |list| then list[skip..] else list[skip..skip + take]
  }

  function ToPage<T>(rows: seq<T>, page: nat): Listing<T> {
    if |rows| > PAGE_SIZE then Page(rows[..PAGE_SIZE], page, true) else Page(rows, page, false)
  }

  function LastPage(total: nat): (last: nat)
    ensures last >= 1
    ensures PAGE_SIZE * (last - 1) <= total <= PAGE_SIZE * last
    ensures total > 0 ==> PAGE_SIZE * (last - 1) < total
  {
    if total == 0 then 1 else (total + PAGE_SIZE - 1) / PAGE_SIZE
  }

  /** One page of the list; an unsafe or non-positive page number reads as page 1. */
  function GetPage<T>(list: seq<T>, page: int): Listing<T> {
    var requested := if 1 <= page <= MAX_SAFE then page else 1;
    if requested == 1 then ToPage(Slice(list, 0, PAGE_SIZE + 1), 1)
    else if requested > LastPage(|list|) then Redirect
    else
      var rows := Slice(list, (requested - 1) * PAGE_SIZE, PAGE_SIZE + 1);
      if rows == [] then Redirect else ToPage(rows, requested)
  }

  /** A page redirects exactly when it lies past the last one. */
  lemma RedirectIffPastTheEnd<T>(list: seq<T>, page: nat)
    requires 1 <= page <= MAX_SAFE
    ensures GetPage(list, page).Redirect? <==> page > LastPage(|list|)
  {
  }

  /** A page that exists holds its own ten rows, and has a next one exactly when rows are left. */
  lemma PageContents<T>(list: seq<T>, page: nat)
    requires 1 <= page <= LastPage(|list|) && page <= MAX_SAFE
    ensures var skip := (page - 1) * PAGE_SIZE;
            && skip <= |list|
            && GetPage(list, page) ==
               if |list| > skip + PAGE_SIZE then Page(list[skip..skip + PAGE_SIZE], page, true) else Page(list[skip..], page, false)
  {
    var skip := (page - 1) * PAGE_SIZE;
    if |list| > skip + PAGE_SIZE {
      assert Slice(list, skip, PAGE_SIZE + 1)[..PAGE_SIZE] == list[skip..skip + PAGE_SIZE];
    }
  }

  /** A page that exists offers a next one exactly until the last. */
  lemma HasNextUntilTheLast<T>(list: seq<T>, page: nat)
    requires 1 <= page <= LastPage(|list|) && page <= MAX_SAFE
    ensures GetPage(list, page).Page? && (GetPage(list, page).hasNext <==> page < LastPage(|list|))
  {
    PageContents(list, page);
  }

  function ItemsOf<T>(listing: Listing<T>): (items: seq<T>) {
    if listing.Redirect? then [] else listing.items
  }

  /** What a client collects from the pages 1 to n. */
  function Collected<T>(list: seq<T>, n: nat): (items: seq<T>) {
    if n == 0 then [] else Collected(list, n - 1) + ItemsOf(GetPage(list, n))
  }

  lemma {:induction false} CollectedIsPrefix<T>(list: seq<T>, n: nat)
    requires n <= LastPage(|list|) && n <= MAX_SAFE
    ensures Collected(list, n) == if n * PAGE_SIZE <= |list| then list[..n * PAGE_SIZE] else list
  {
    hide GetPage, LastPage;
    if n > 0 {
      CollectedIsPrefix(list, n - 1);
      PageContents(list, n);
      var skip := (n - 1) * PAGE_SIZE;
      if n * PAGE_SIZE < |list| {
        assert list[..skip] + list[skip..skip + PAGE_SIZE] == list[..n * PAGE_SIZE];
      } else {
        assert list[..skip] + list[skip..] == list;
      }
    }
  }

  lemma {:induction false} CollectedGrows<T>(list: seq<T>, m: nat, n: nat)
    requires m <= n
    ensures Collected(list, m) <= Collected(list, n)
  {
    if m < n {
      CollectedGrows(list, m, n - 1);
    }
  }

  /** The page after the last safe number reads as page 1 again. */
  lemma SafeNumbersWrap<T>(list: seq<T>)
    requires LastPage(|list|) > MAX_SAFE
    ensures Collected(list, MAX_SAFE + 1) == list[..MAX_SAFE * PAGE_SIZE] + list[..PAGE_SIZE]
  {
    CollectedIsPrefix(list, MAX_SAFE);
    PageContents(list, 1);
    assert GetPage(list, MAX_SAFE + 1) == GetPage(list, 1);
  }

  /**
   * The pages 1 to the last tile a list of distinct bookings, each exactly once and in order, exactly when the last
   * page has a safe number.
   */
  lemma PagesTileTheListIff<T>(list: seq<T>)
    requires forall i, j | 0 <= i < j < |list| :: list[i] != list[j]
    ensures Collected(list, LastPage(|list|)) == list <==> LastPage(|list|) <= MAX_SAFE
  {
    var last := LastPage(|list|);
    if last <= MAX_SAFE {
      CollectedIsPrefix(list, last);
    } else {
      SafeNumbersWrap(list);
      CollectedGrows(list, MAX_SAFE + 1, last);
      var again := MAX_SAFE * PAGE_SIZE;
      assert Collected(list, MAX_SAFE + 1)[again] == list[0];
      assert Collected(list, last)[again] == list[0] != list[again];
    }
  }
}
