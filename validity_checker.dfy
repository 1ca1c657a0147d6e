/**
 * The validity classifier of the promotions page: the status of a
 * promotion's validity date against the current time, the rank order in
 * which validated promotions are listed, the rendering of a validity date,
 * and the message and colour each status is shown with.
 *
 * Time is an integer count of milliseconds. Parsing a date string, and
 * reading the calendar fields of a parsed date in local time, are
 * parameters: `new Date(s)` is `parse(s)` and its `getTime()` /
 * `getDate()`, `getMonth()`, `getFullYear()` are the fields of what `parse`
 * gives; `None` stands for a date whose time is NaN.
 */
module ValidityChecker {
  import opened Wrappers
  import opened Strings
  import opened Sequences

  // ----------------------------------------------------------------- status

  /** The four validity statuses. */
  datatype Status = Valid | Expiring | Expired | Unknown

  /** The string each status is written as. */
  function StatusName(s: Status): string
  {
    match s
    case Valid => "valid"
    case Expiring => "expiring"
    case Expired => "expired"
    case Unknown => "unknown"
  }

  /** The sort key `statusOrder[status]`. */
  function Rank(s: Status): (r: nat)
    ensures r < 4
  {
    match s
    case Valid => 0
    case Expiring => 1
    case Expired => 2
    case Unknown => 3
  }

  /** Distinct statuses have distinct ranks. */
  lemma RankInjective(s: Status, t: Status)
    ensures Rank(s) == Rank(t) <==> s == t
  {
  }

  /** Three days in milliseconds: `setDate(now.getDate() + 3)`. */
  const ThreeDays: int := 3 * 24 * 60 * 60 * 1000

  /** The status of a parseable validity time `v` at time `now`. */
  function StatusAt(v: int, now: int): Status
  {
    if v < now then Expired
    else if v <= now + ThreeDays then Expiring
    else Valid
  }

  /** `getValidityStatus(validUntilStr)` with `new Date(...)` as `parse` and the clock at `now`. */
  function GetValidityStatus(validUntil: Option<string>, parse: string -> Option<int>, now: int): (r: Status)
    ensures !Truthy(validUntil) ==> r == Unknown
    ensures Truthy(validUntil) && parse(validUntil.value).None? ==> r == Unknown
    ensures Truthy(validUntil) && parse(validUntil.value).Some? ==> r == StatusAt(parse(validUntil.value).value, now)
  {
    if !Truthy(validUntil) then Unknown
    else match parse(validUntil.value)
      case None => Unknown
      case Some(v) => StatusAt(v, now)
  }

  /**
   * A parseable date lands in exactly one of three buckets: expired before
   * `now`, expiring from `now` to three days later, valid after that.
   */
  lemma StatusBuckets(v: int, now: int)
    ensures StatusAt(v, now) != Unknown
    ensures StatusAt(v, now) == Expired <==> v < now
    ensures StatusAt(v, now) == Expiring <==> now <= v <= now + ThreeDays
    ensures StatusAt(v, now) == Valid <==> now + ThreeDays < v
  {
  }

  /** A later validity date never has a higher rank. */
  lemma RankAntitone(v: int, w: int, now: int)
    requires v <= w
    ensures Rank(StatusAt(w, now)) <= Rank(StatusAt(v, now))
  {
  }

  /** `unknown` comes out exactly for a missing, empty or unparseable date. */
  lemma UnknownExactly(validUntil: Option<string>, parse: string -> Option<int>, now: int)
    ensures GetValidityStatus(validUntil, parse, now) == Unknown
        <==> !Truthy(validUntil) || parse(validUntil.value).None?
  {
    if Truthy(validUntil) && parse(validUntil.value).Some? {
      StatusBuckets(parse(validUntil.value).value, now);
    }
  }

  // --------------------------------------------------------- validate, sort

  /** `{ ...promo, validityStatus }`: the promotion unchanged, with its status added. */
  datatype Validated<T> = Validated(item: T, validityStatus: Status)

  /** `promotions.map(...)`: each promotion with the status of its `validUntil`. */
  function Classify<T>(promotions: seq<T>, validUntil: T -> Option<string>,
                       parse: string -> Option<int>, now: int): (r: seq<Validated<T>>)
    ensures |r| == |promotions|
    ensures forall i | 0 <= i < |r| ::
      r[i] == Validated(promotions[i], GetValidityStatus(validUntil(promotions[i]), parse, now))
  {
    if promotions == [] then []
    else
      var last := promotions[|promotions| - 1];
      Classify(promotions[..|promotions| - 1], validUntil, parse, now)
      + [Validated(last, GetValidityStatus(validUntil(last), parse, now))]
  }

  /** The elements of `xs` with status `s`, in their order in `xs`. */
  function WithStatus<T>(xs: seq<Validated<T>>, s: Status): seq<Validated<T>>
  {
    if xs == [] then []
    else (if xs[0].validityStatus == s then [xs[0]] else []) + WithStatus(xs[1..], s)
  }

  /** Non-decreasing by rank. */
  predicate SortedByRank<T>(xs: seq<Validated<T>>)
  {
    forall i, j | 0 <= i < j < |xs| :: Rank(xs[i].validityStatus) <= Rank(xs[j].validityStatus)
  }

  /**
   * `[...validated].sort((a, b) => statusOrder[a] - statusOrder[b])`.
   * `Array.prototype.sort` is stable, so the outcome is the valid
   * promotions, then the expiring, the expired and the unknown ones, each
   * group in input order.
   */
  function RankSorted<T>(xs: seq<Validated<T>>): seq<Validated<T>>
  {
    WithStatus(xs, Valid) + WithStatus(xs, Expiring) + WithStatus(xs, Expired) + WithStatus(xs, Unknown)
  }

  /** What the hook stores as `validatedPromotions`: nothing for a null or empty list. */
  function ValidatedPromotions<T>(promotions: Option<seq<T>>, validUntil: T -> Option<string>,
                                  parse: string -> Option<int>, now: int): seq<Validated<T>>
  {
    if promotions.None? || promotions.value == [] then []
    else RankSorted(Classify(promotions.value, validUntil, parse, now))
  }

  /** Filtering keeps exactly the elements of status `s`, and only from `xs`. */
  lemma {:induction false} WithStatusMembers<T>(xs: seq<Validated<T>>, s: Status)
    ensures forall x | x in WithStatus(xs, s) :: x.validityStatus == s && x in xs
    ensures forall x | x in xs && x.validityStatus == s :: x in WithStatus(xs, s)
  {
    if xs != [] {
      WithStatusMembers(xs[1..], s);
    }
  }

  /** Filtering distributes over concatenation. */
  lemma {:induction false} WithStatusConcat<T>(a: seq<Validated<T>>, b: seq<Validated<T>>, s: Status)
    ensures WithStatus(a + b, s) == WithStatus(a, s) + WithStatus(b, s)
  {
    if a == [] {
      assert a + b == b;
    } else {
      assert (a + b)[1..] == a[1..] + b;
      WithStatusConcat(a[1..], b, s);
      var h := if a[0].validityStatus == s then [a[0]] else [];
      ConcatAssoc(h, WithStatus(a[1..], s), WithStatus(b, s));
    }
  }

  /** A sequence with no element of status `s` filters to nothing. */
  lemma {:induction false} WithStatusNone<T>(xs: seq<Validated<T>>, s: Status)
    requires forall x | x in xs :: x.validityStatus != s
    ensures WithStatus(xs, s) == []
  {
    if xs != [] {
      WithStatusNone(xs[1..], s);
    }
  }

  /** A sequence whose elements all have status `s` filters to itself. */
  lemma {:induction false} WithStatusAll<T>(xs: seq<Validated<T>>, s: Status)
    requires forall x | x in xs :: x.validityStatus == s
    ensures WithStatus(xs, s) == xs
  {
    if xs != [] {
      WithStatusAll(xs[1..], s);
    }
  }

  /** The four filters split the multiset of elements between them. */
  lemma {:induction false} WithStatusPartition<T>(xs: seq<Validated<T>>)
    ensures multiset(xs) == multiset(WithStatus(xs, Valid)) + multiset(WithStatus(xs, Expiring))
      + multiset(WithStatus(xs, Expired)) + multiset(WithStatus(xs, Unknown))
  {
    if xs != [] {
      var y, rest := xs[0], xs[1..];
      WithStatusPartition(rest);
      assert xs == [y] + rest;
      WithStatusCons(y, rest, Valid);
      WithStatusCons(y, rest, Expiring);
      WithStatusCons(y, rest, Expired);
      WithStatusCons(y, rest, Unknown);
      var a, b := multiset(WithStatus(rest, Valid)), multiset(WithStatus(rest, Expiring));
      var c, d := multiset(WithStatus(rest, Expired)), multiset(WithStatus(rest, Unknown));
      assert multiset(xs) == multiset{y} + (a + b + c + d);
      OneMoreInOnePart(multiset{y}, a, b, c, d);
      match y.validityStatus
      case Valid => assert multiset(WithStatus(xs, Valid)) == multiset{y} + a;
      case Expiring => assert multiset(WithStatus(xs, Expiring)) == multiset{y} + b;
      case Expired => assert multiset(WithStatus(xs, Expired)) == multiset{y} + c;
      case Unknown => assert multiset(WithStatus(xs, Unknown)) == multiset{y} + d;
    }
  }

  /** Adding to a sum of four is adding to any one of its parts. */
  lemma OneMoreInOnePart<T>(y: multiset<T>, a: multiset<T>, b: multiset<T>, c: multiset<T>, d: multiset<T>)
    ensures y + (a + b + c + d) == (y + a) + b + c + d
    ensures y + (a + b + c + d) == a + (y + b) + c + d
    ensures y + (a + b + c + d) == a + b + (y + c) + d
    ensures y + (a + b + c + d) == a + b + c + (y + d)
  {
  }

  /** Sequences whose elements have ranks in order line up sorted. */
  lemma SortedConcat<T>(a: seq<Validated<T>>, b: seq<Validated<T>>)
    requires SortedByRank(a) && SortedByRank(b)
    requires forall x, y | x in a && y in b :: Rank(x.validityStatus) <= Rank(y.validityStatus)
    ensures SortedByRank(a + b)
  {
    forall i, j | 0 <= i < j < |a + b|
      ensures Rank((a + b)[i].validityStatus) <= Rank((a + b)[j].validityStatus)
    {
      if j < |a| {
        assert (a + b)[i] == a[i] && (a + b)[j] == a[j];
      } else if i < |a| {
        assert (a + b)[i] == a[i] && (a + b)[j] == b[j - |a|];
      } else {
        assert (a + b)[i] == b[i - |a|] && (a + b)[j] == b[j - |a|];
      }
    }
  }

  /** Each filter is sorted, every element having the same status. */
  lemma WithStatusSorted<T>(xs: seq<Validated<T>>, s: Status)
    ensures SortedByRank(WithStatus(xs, s))
  {
    WithStatusMembers(xs, s);
    var w := WithStatus(xs, s);
    assert forall i | 0 <= i < |w| :: w[i] in w;
  }

  /** The sort orders by rank: valid, then expiring, then expired, then unknown. */
  lemma RankSortedIsSorted<T>(xs: seq<Validated<T>>)
    ensures SortedByRank(RankSorted(xs))
  {
    var v, e, x, u := WithStatus(xs, Valid), WithStatus(xs, Expiring), WithStatus(xs, Expired), WithStatus(xs, Unknown);
    WithStatusMembers(xs, Valid);
    WithStatusMembers(xs, Expiring);
    WithStatusMembers(xs, Expired);
    WithStatusMembers(xs, Unknown);
    WithStatusSorted(xs, Valid);
    WithStatusSorted(xs, Expiring);
    WithStatusSorted(xs, Expired);
    WithStatusSorted(xs, Unknown);
    SortedConcat(v, e);
    assert forall y | y in v + e :: y in v || y in e;
    SortedConcat(v + e, x);
    assert forall y | y in v + e + x :: y in v + e || y in x;
    SortedConcat(v + e + x, u);
  }

  /** The sort is a permutation: it neither adds, drops nor duplicates a promotion. */
  lemma RankSortedPermutes<T>(xs: seq<Validated<T>>)
    ensures multiset(RankSorted(xs)) == multiset(xs)
  {
    WithStatusPartition(xs);
  }

  /** The sort is stable: promotions of each status keep their input order. */
  lemma RankSortedStable<T>(xs: seq<Validated<T>>, s: Status)
    ensures WithStatus(RankSorted(xs), s) == WithStatus(xs, s)
  {
    var v, e, x, u := WithStatus(xs, Valid), WithStatus(xs, Expiring), WithStatus(xs, Expired), WithStatus(xs, Unknown);
    WithStatusConcat(v + e + x, u, s);
    WithStatusConcat(v + e, x, s);
    WithStatusConcat(v, e, s);
    FilterOfFilter(xs, Valid, s);
    FilterOfFilter(xs, Expiring, s);
    FilterOfFilter(xs, Expired, s);
    FilterOfFilter(xs, Unknown, s);
  }

  /** Filtering a filtered sequence again by status `s`. */
  lemma FilterOfFilter<T>(xs: seq<Validated<T>>, t: Status, s: Status)
    ensures WithStatus(WithStatus(xs, t), s) == if t == s then WithStatus(xs, s) else []
  {
    WithStatusMembers(xs, t);
    if t == s {
      WithStatusAll(WithStatus(xs, t), s);
    } else {
      WithStatusNone(WithStatus(xs, t), s);
    }
  }

  /** Filtering a sequence with `y` in front. */
  lemma WithStatusCons<T>(y: Validated<T>, rest: seq<Validated<T>>, s: Status)
    ensures WithStatus([y] + rest, s) == if y.validityStatus == s then [y] + WithStatus(rest, s) else WithStatus(rest, s)
  {
    var ys := [y] + rest;
    assert ys[0] == y && ys[1..] == rest;
  }

  /**
   * Putting `y` in front of one of four groups, every group before it being
   * empty, puts it in front of their concatenation.
   */
  lemma FrontOfGroup<T>(y: seq<T>, a: seq<T>, b: seq<T>, c: seq<T>, d: seq<T>)
    ensures (y + a) + b + c + d == y + (a + b + c + d)
    ensures a == [] ==> a + (y + b) + c + d == y + (a + b + c + d)
    ensures a == [] && b == [] ==> a + b + (y + c) + d == y + (a + b + c + d)
    ensures a == [] && b == [] && c == [] ==> a + b + c + (y + d) == y + (a + b + c + d)
  {
    ConcatAssoc(y, a, b);
    ConcatAssoc(y, a + b, c);
    ConcatAssoc(y, a + b + c, d);
    if a == [] {
      assert a + (y + b) == y + b && a + b == b;
      ConcatAssoc(y, b, c);
      ConcatAssoc(y, b + c, d);
    }
    if a == [] && b == [] {
      assert a + b + (y + c) == y + c && a + b + c == c;
      ConcatAssoc(y, c, d);
    }
    if a == [] && b == [] && c == [] {
      assert a + b + c + (y + d) == y + d && a + b + c + d == d;
    }
  }

  /** Putting an element of least rank in front of a sequence puts it in front of its sorted form. */
  lemma RankSortedCons<T>(y: Validated<T>, rest: seq<Validated<T>>)
    requires forall z | z in rest :: Rank(y.validityStatus) <= Rank(z.validityStatus)
    ensures RankSorted([y] + rest) == [y] + RankSorted(rest)
  {
    var ys := [y] + rest;
    var v, e, x, u := WithStatus(rest, Valid), WithStatus(rest, Expiring), WithStatus(rest, Expired), WithStatus(rest, Unknown);
    WithStatusCons(y, rest, Valid);
    WithStatusCons(y, rest, Expiring);
    WithStatusCons(y, rest, Expired);
    WithStatusCons(y, rest, Unknown);
    if y.validityStatus != Valid {
      WithStatusNone(rest, Valid);
    }
    if Rank(y.validityStatus) > 1 {
      WithStatusNone(rest, Expiring);
    }
    if y.validityStatus == Unknown {
      WithStatusNone(rest, Expired);
    }
    FrontOfGroup([y], v, e, x, u);
  }

  /** A sequence already sorted by rank is its own rank-sorted form. */
  lemma {:induction false} SortedIsRankSorted<T>(ys: seq<Validated<T>>)
    requires SortedByRank(ys)
    ensures RankSorted(ys) == ys
  {
    if ys != [] {
      var y, rest := ys[0], ys[1..];
      assert SortedByRank(rest);
      SortedIsRankSorted(rest);
      assert forall z | z in rest :: Rank(y.validityStatus) <= Rank(z.validityStatus);
      RankSortedCons(y, rest);
      assert ys == [y] + rest;
    }
  }

  /**
   * The outcome is the only stable sort by rank: any sequence sorted by
   * rank that keeps each status group of `xs` in order is `RankSorted(xs)`.
   */
  lemma RankSortedUnique<T>(xs: seq<Validated<T>>, ys: seq<Validated<T>>)
    requires SortedByRank(ys)
    requires forall s: Status :: WithStatus(ys, s) == WithStatus(xs, s)
    ensures ys == RankSorted(xs)
  {
    SortedIsRankSorted(ys);
    assert WithStatus(ys, Valid) == WithStatus(xs, Valid);
    assert WithStatus(ys, Expiring) == WithStatus(xs, Expiring);
    assert WithStatus(ys, Expired) == WithStatus(xs, Expired);
    assert WithStatus(ys, Unknown) == WithStatus(xs, Unknown);
  }

  /**
   * What the hook stores: empty for an empty list; otherwise every
   * promotion once, each with the status of its own date, sorted by rank,
   * each status group in input order.
   */
  lemma ValidatedPromotionsSpec<T>(promotions: seq<T>, validUntil: T -> Option<string>,
                                   parse: string -> Option<int>, now: int)
    ensures var r := ValidatedPromotions(Some(promotions), validUntil, parse, now);
      var c := Classify(promotions, validUntil, parse, now);
      && (promotions == [] ==> r == [])
      && |r| == |promotions|
      && multiset(r) == multiset(c)
      && (forall v | v in r :: v.validityStatus == GetValidityStatus(validUntil(v.item), parse, now))
      && SortedByRank(r)
      && (forall s: Status :: WithStatus(r, s) == WithStatus(c, s))
  {
    var c := Classify(promotions, validUntil, parse, now);
    if promotions != [] {
      RankSortedPermutes(c);
      RankSortedIsSorted(c);
      forall s: Status ensures WithStatus(RankSorted(c), s) == WithStatus(c, s) {
        RankSortedStable(c, s);
      }
      var r := RankSorted(c);
      assert |r| == |multiset(r)| == |multiset(c)| == |c|;
      forall v | v in r ensures v.validityStatus == GetValidityStatus(validUntil(v.item), parse, now) {
        assert v in multiset(c);
        var i :| 0 <= i < |c| && c[i] == v;
      }
    }
  }

  // ------------------------------------------------------------- formatting

  /** A day of the month, as `getDate()` returns it. */
  type Day = d: int | 1 <= d <= 31 witness 1

  /** A month index, as `getMonth()` returns it: 0 for January. */
  type MonthIndex = m: int | 0 <= m < 12 witness 0

  /** The local calendar fields of a parsed date. */
  datatype LocalDate = LocalDate(date: Day, month: MonthIndex, fullYear: int)

  /** The month names of the `'text'` format, January first. */
  const MonthNames: seq<string> := [
    "Janeiro", "Fevereiro", "Março", "Abril", "Maio", "Junho",
    "Julho", "Agosto", "Setembro", "Outubro", "Novembro", "Dezembro"
  ]

  /** `n.toString().padStart(2, '0')` */
  function TwoDigits(n: nat): string
  {
    PadStart2(NatToString(n))
  }

  /** `${day}/${month}`: the zero-padded day and month. */
  function DayMonth(d: LocalDate): string
  {
    TwoDigits(d.date) + "/" + TwoDigits(d.month + 1)
  }

  /** `${day}/${month}/${year}` */
  function DayMonthYear(d: LocalDate): string
  {
    DayMonth(d) + "/" + IntToString(d.fullYear)
  }

  /** `${day} de ${months[getMonth()]} de ${year}` */
  function LongDate(d: LocalDate): string
  {
    TwoDigits(d.date) + " de " + MonthNames[d.month] + " de " + IntToString(d.fullYear)
  }

  /** `formatValidityDate(validUntilStr, format)` with `new Date(...)` and its local fields as `parse`. */
  function FormatValidityDate(validUntil: Option<string>, format: string,
                              parse: string -> Option<LocalDate>): (r: string)
    ensures !Truthy(validUntil) ==> r == "Data não informada"
    ensures Truthy(validUntil) && parse(validUntil.value).None? ==> r == "Data inválida"
  {
    if !Truthy(validUntil) then "Data não informada"
    else match parse(validUntil.value)
      case None => "Data inválida"
      case Some(d) =>
        if format == "dd/mm/yyyy" then DayMonthYear(d)
        else if format == "dd/mm" then DayMonth(d)
        else if format == "text" then LongDate(d)
        else DayMonthYear(d)
  }

  /**
   * Day and month are exactly two digits each, denote the day of the month
   * and the month counted from 1, and the year follows the second slash.
   */
  lemma NumericFields(d: LocalDate)
    ensures var r := DayMonthYear(d);
      && |r| > 6 && r[2] == '/' && r[5] == '/'
      && AllDigits(r[0..2]) && DecimalValue(r[0..2]) == d.date
      && AllDigits(r[3..5]) && DecimalValue(r[3..5]) == d.month + 1
      && r[6..] == IntToString(d.fullYear)
  {
    PadStart2Number(d.date);
    PadStart2Number(d.month + 1);
    var dd, mm, yy := TwoDigits(d.date), TwoDigits(d.month + 1), IntToString(d.fullYear);
    var r := DayMonthYear(d);
    assert r == dd + "/" + mm + "/" + yy;
    assert r[0..2] == dd;
    assert r[3..5] == mm;
    assert r[6..] == yy;
  }

  /**
   * A date that parses renders in the form its format names: the day, month
   * and year of `NumericFields` for `'dd/mm/yyyy'`, their first two for
   * `'dd/mm'`, and the long form of `LongDateFields` for `'text'`.
   */
  lemma ParseableRendering(s: string, parse: string -> Option<LocalDate>)
    requires s != "" && parse(s).Some?
    ensures FormatValidityDate(Some(s), "dd/mm/yyyy", parse) == DayMonthYear(parse(s).value)
    ensures FormatValidityDate(Some(s), "dd/mm", parse) == DayMonth(parse(s).value)
    ensures FormatValidityDate(Some(s), "text", parse) == LongDate(parse(s).value)
  {
  }

  /** The `'dd/mm'` rendering is a prefix of the `'dd/mm/yyyy'` one, for every input. */
  lemma ShortIsPrefix(validUntil: Option<string>, parse: string -> Option<LocalDate>)
    ensures FormatValidityDate(validUntil, "dd/mm", parse) <= FormatValidityDate(validUntil, "dd/mm/yyyy", parse)
  {
    if Truthy(validUntil) && parse(validUntil.value).Some? {
      var d := parse(validUntil.value).value;
      var short := DayMonth(d);
      ConcatSplit(short, "/" + IntToString(d.fullYear));
      assert DayMonthYear(d) == short + ("/" + IntToString(d.fullYear));
    }
  }

  /** Any other format renders as `'dd/mm/yyyy'`. */
  lemma OtherFormatsAreDefault(validUntil: Option<string>, format: string, parse: string -> Option<LocalDate>)
    requires format != "dd/mm/yyyy" && format != "dd/mm" && format != "text"
    ensures FormatValidityDate(validUntil, format, parse) == FormatValidityDate(validUntil, "dd/mm/yyyy", parse)
  {
  }

  /** The month names are twelve and pairwise distinct, so the `'text'` form names the month. */
  lemma MonthNamesDistinct()
    ensures |MonthNames| == 12
    ensures forall i, j | 0 <= i < j < 12 :: MonthNames[i] != MonthNames[j]
  {
    forall i, j | 0 <= i < j < 12 ensures MonthNames[i] != MonthNames[j] {
      var a, b := MonthNames[i], MonthNames[j];
      if |a| == |b| {
        assert a[0] != b[0] || a[1] != b[1] || a[2] != b[2];
      }
    }
  }

  /**
   * The `'text'` form: the two-digit day, " de ", the name the table gives
   * the month index, " de " and the year.
   */
  lemma LongDateFields(d: LocalDate)
    ensures var r := LongDate(d);
      var dd := TwoDigits(d.date);
      && |dd| == 2 && AllDigits(dd) && DecimalValue(dd) == d.date
      && r[..2] == dd
      && r[2..6] == " de "
      && r[6..6 + |MonthNames[d.month]|] == MonthNames[d.month]
      && r[6 + |MonthNames[d.month]|..] == " de " + IntToString(d.fullYear)
  {
    PadStart2Number(d.date);
    var dd := TwoDigits(d.date);
    var name := MonthNames[d.month];
    var rest := " de " + IntToString(d.fullYear);
    var head := dd + " de ";
    var r := LongDate(d);
    assert r == (head + name) + rest;
    ConcatSplit(head + name, rest);
    ConcatSplit(head, name);
    ConcatSplit(dd, " de ");
    assert r[..|head + name|] == head + name;
    assert r[..2] == (head + name)[..2] == head[..2] == dd;
    assert r[2..6] == (head + name)[2..6] == head[2..6];
    assert r[6..6 + |name|] == (head + name)[6..] == name;
  }

  // ------------------------------------------------------ message and colour

  /** `getValidityMessage(status)` */
  function GetValidityMessage(status: string): (r: string)
    ensures status == "valid" ==> r == "Promoção válida"
    ensures status == "expiring" ==> r == "Expira em breve"
    ensures status == "expired" ==> r == "Promoção expirada"
    ensures status != "valid" && status != "expiring" && status != "expired" ==> r == "Validade desconhecida"
  {
    if status == "valid" then "Promoção válida"
    else if status == "expiring" then "Expira em breve"
    else if status == "expired" then "Promoção expirada"
    else "Validade desconhecida"
  }

  /** `getValidityColor(status)` */
  function GetValidityColor(status: string): (r: string)
    ensures status == "valid" ==> r == "text-green-600"
    ensures status == "expiring" ==> r == "text-orange-500"
    ensures status == "expired" ==> r == "text-red-600"
    ensures status != "valid" && status != "expiring" && status != "expired" ==> r == "text-gray-500"
  {
    if status == "valid" then "text-green-600"
    else if status == "expiring" then "text-orange-500"
    else if status == "expired" then "text-red-600"
    else "text-gray-500"
  }

  /**
   * Both tables are total, and any string outside the three known statuses
   * gets the `unknown` entry.
   */
  lemma TablesTotal(status: string)
    ensures GetValidityMessage(status) == GetValidityMessage("unknown")
        <==> status != "valid" && status != "expiring" && status != "expired"
    ensures GetValidityColor(status) == GetValidityColor("unknown")
        <==> status != "valid" && status != "expiring" && status != "expired"
  {
  }

  /** Each status the classifier gives is shown with its own message and colour. */
  lemma TablesDistinguishStatuses(s: Status, t: Status)
    requires s != t
    ensures GetValidityMessage(StatusName(s)) != GetValidityMessage(StatusName(t))
    ensures GetValidityColor(StatusName(s)) != GetValidityColor(StatusName(t))
  {
  }
}
