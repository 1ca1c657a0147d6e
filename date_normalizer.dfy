/**
 * Validity-date normalisation of the collector (`parseValidityDate` and
 * `extractValidityDate`): free text in, an ISO-looking `YYYY-MM-DD` string
 * or nothing out. The current year, which the source reads from the clock,
 * is a parameter. No calendar check is made: "31/02/2024" becomes
 * "2024-02-31".
 */
module DateNormalizer {
  import opened Wrappers
  import opened Strings

  /** The two shapes `parseValidityDate` tries, `(\d{2})\/(\d{2})\/(\d{4})` and `(\d{2})\/(\d{2})`. */
  datatype DateFormat = DayMonthYear | DayMonth

  /** The order in which the shapes are tried. */
  const Formats: seq<DateFormat> := [DayMonthYear, DayMonth]

  /** Length of the text a shape matches. */
  function Width(f: DateFormat): nat
  {
    match f
    case DayMonthYear => 10
    case DayMonth => 5
  }

  /** The text of `s` from `i` on starts with the shape `f`. */
  predicate ShapeAt(s: string, i: nat, f: DateFormat)
  {
    && i + Width(f) <= |s|
    && IsDigit(s[i]) && IsDigit(s[i + 1]) && s[i + 2] == '/'
    && IsDigit(s[i + 3]) && IsDigit(s[i + 4])
    && (f == DayMonthYear ==>
          s[i + 5] == '/' && IsDigit(s[i + 6]) && IsDigit(s[i + 7])
          && IsDigit(s[i + 8]) && IsDigit(s[i + 9]))
  }

  /** Where the leftmost match of shape `f` in `s` starts, if anywhere. */
  function ShapeMatch(s: string, f: DateFormat): (r: Option<nat>)
    ensures r.Some? ==> ShapeAt(s, r.value, f)
    ensures r.Some? ==> forall j :: 0 <= j < r.value ==> !ShapeAt(s, j, f)
    ensures r.None? ==> forall j: nat :: !ShapeAt(s, j, f)
  {
    var p := (j: nat) => ShapeAt(s, j, f);
    assert forall j: nat :: p(j) == ShapeAt(s, j, f);
    FirstIndex(|s|, 0, p)
  }

  /** The `format` callback of the shape matched at `i`. */
  function Render(s: string, i: nat, f: DateFormat, year: nat): string
    requires ShapeAt(s, i, f)
  {
    match f
    case DayMonthYear => s[i + 6..i + 10] + "-" + s[i + 3..i + 5] + "-" + s[i..i + 2]
    case DayMonth => NatToString(year) + "-" + s[i + 3..i + 5] + "-" + s[i..i + 2]
  }

  /** The index in `Formats` of the first shape that occurs in `s`. */
  function FirstFormat(s: string): (r: Option<nat>)
    ensures r.Some? ==> r.value < |Formats| && ShapeMatch(s, Formats[r.value]).Some?
    ensures r.Some? ==> forall k :: 0 <= k < r.value ==> ShapeMatch(s, Formats[k]).None?
    ensures r.None? ==> forall k :: 0 <= k < |Formats| ==> ShapeMatch(s, Formats[k]).None?
  {
    var p := (k: nat) => k < |Formats| && ShapeMatch(s, Formats[k]).Some?;
    assert forall k: nat :: p(k) == (k < |Formats| && ShapeMatch(s, Formats[k]).Some?);
    FirstIndex(|Formats|, 0, p)
  }

  /** What `parseValidityDate(dateStr)` returns: the rendering of the first shape that occurs. */
  function Normalized(dateStr: string, year: nat): Option<string>
  {
    if dateStr == "" then None
    else match FirstFormat(dateStr)
      case Some(k) => Some(Render(dateStr, ShapeMatch(dateStr, Formats[k]).value, Formats[k], year))
      case None => None
  }

  /** `parseValidityDate`: tries each shape in turn and returns the first rendering. */
  method ParseValidityDate(dateStr: string, year: nat) returns (r: Option<string>)
    ensures r == Normalized(dateStr, year)
  {
    if dateStr == "" {
      return None;
    }
    var k := 0;
    while k < |Formats|
      invariant 0 <= k <= |Formats|
      invariant forall j :: 0 <= j < k ==> ShapeMatch(dateStr, Formats[j]).None?
    {
      var f := Formats[k];
      var m := ShapeMatch(dateStr, f);
      if m.Some? {
        return Some(Render(dateStr, m.value, f, year));
      }
      k := k + 1;
    }
    return None;
  }

  /**
   * When `s` holds DD/MM/YYYY anywhere, its first occurrence is rearranged
   * into YYYY-MM-DD, whatever the digits are.
   */
  lemma NormalizedFirstFullDate(s: string, year: nat, i: nat)
    requires ShapeAt(s, i, DayMonthYear)
    requires forall j :: 0 <= j < i ==> !ShapeAt(s, j, DayMonthYear)
    ensures Normalized(s, year) == Some(s[i + 6..i + 10] + "-" + s[i + 3..i + 5] + "-" + s[i..i + 2])
  {
    assert ShapeMatch(s, Formats[0]) == Some(i);
  }

  /**
   * Without any DD/MM/YYYY, the first DD/MM becomes `<year>-MM-DD`, the year
   * being the current one.
   */
  lemma NormalizedFirstDayMonth(s: string, year: nat, i: nat)
    requires forall j: nat :: !ShapeAt(s, j, DayMonthYear)
    requires ShapeAt(s, i, DayMonth)
    requires forall j :: 0 <= j < i ==> !ShapeAt(s, j, DayMonth)
    ensures Normalized(s, year) == Some(NatToString(year) + "-" + s[i + 3..i + 5] + "-" + s[i..i + 2])
  {
    assert ShapeMatch(s, Formats[0]).None?;
    assert ShapeMatch(s, Formats[1]) == Some(i);
  }

  /** The result is null exactly when not even a DD/MM occurs in `s`. */
  lemma NormalizedNone(s: string, year: nat)
    ensures Normalized(s, year).None? <==> forall j: nat :: !ShapeAt(s, j, DayMonth)
  {
    if Normalized(s, year).None? && s != "" {
      assert ShapeMatch(s, Formats[1]).None?;
    }
    if Normalized(s, year).Some? {
      var k := FirstFormat(s).value;
      var i := ShapeMatch(s, Formats[k]).value;
      assert ShapeAt(s, i, DayMonth);
    }
  }

  /**
   * The full-year shape is tried first: a text holding DD/MM/YYYY never
   * reaches the current-year branch, so the clock does not matter.
   */
  lemma NormalizedYearIndependent(s: string, i: nat, year1: nat, year2: nat)
    requires ShapeAt(s, i, DayMonthYear)
    ensures Normalized(s, year1) == Normalized(s, year2)
    ensures Normalized(s, year1).Some?
  {
    assert ShapeMatch(s, Formats[0]).Some?;
    assert FirstFormat(s) == Some(0);
  }

  /** Turns a rendered `YYYY-MM-DD` back into `DD/MM/YYYY`. */
  function DayFirst(iso: string): string
    requires |iso| == 10
  {
    iso[8..10] + "/" + iso[5..7] + "/" + iso[0..4]
  }

  /** An exact DD/MM/YYYY comes back, digit for digit, from its normal form. */
  lemma NormalizedRoundTrip(s: string, year: nat)
    requires |s| == 10 && ShapeAt(s, 0, DayMonthYear)
    ensures Normalized(s, year).Some?
    ensures |Normalized(s, year).value| == 10
    ensures DayFirst(Normalized(s, year).value) == s
  {
    NormalizedFirstFullDate(s, year, 0);
    var iso := Normalized(s, year).value;
    assert DayFirst(iso) == s[0..2] + "/" + s[3..5] + "/" + s[6..10];
    assert s == s[0..2] + "/" + s[3..5] + "/" + s[6..10];
  }

  /** No calendar check: day 31 of February passes through. */
  lemma NoCalendarCheck(year: nat)
    ensures Normalized("31/02/2024", year) == Some("2024-02-31")
  {
    var s := "31/02/2024";
    NormalizedFirstFullDate(s, year, 0);
    assert s[6..10] == "2024" && s[3..5] == "02" && s[0..2] == "31";
    assert "2024" + "-" + "02" + "-" + "31" == "2024-02-31";
  }

  // ---------------------------------------------------------------------
  // extractValidityDate

  /** Lead-in phrases of the extraction patterns. */
  datatype Lead = ValidoAte | Validade | ExpiraEm

  function LeadText(l: Lead): string
  {
    match l
    case ValidoAte => "válido até "
    case Validade => "validade: "
    case ExpiraEm => "expira em "
  }

  /** `/<lead>(<shape>)/i` */
  datatype ExtractionPattern = Pattern(lead: Lead, shape: DateFormat)

  /** The four patterns, in the order `extractValidityDate` tries them. */
  const Patterns: seq<ExtractionPattern> := [
    Pattern(ValidoAte, DayMonthYear),
    Pattern(Validade, DayMonthYear),
    Pattern(ExpiraEm, DayMonthYear),
    Pattern(ValidoAte, DayMonth)
  ]

  /** The pattern `p` matches `s` at `i`: its lead, case ignored, then its shape. */
  predicate PatternAt(s: string, i: nat, p: ExtractionPattern)
  {
    LitAtI(s, i, LeadText(p.lead)) && ShapeAt(s, i + |LeadText(p.lead)|, p.shape)
  }

  /** Where the leftmost match of `p` in `s` starts, if anywhere. */
  function PatternIndex(s: string, p: ExtractionPattern): (r: Option<nat>)
    ensures r.Some? ==> PatternAt(s, r.value, p)
    ensures r.Some? ==> forall j :: 0 <= j < r.value ==> !PatternAt(s, j, p)
    ensures r.None? ==> forall j: nat :: !PatternAt(s, j, p)
  {
    var q := (j: nat) => PatternAt(s, j, p);
    assert forall j: nat :: q(j) == PatternAt(s, j, p);
    FirstIndex(|s|, 0, q)
  }

  /** A match at `i` with none before it is the leftmost. */
  lemma PatternIndexAt(s: string, p: ExtractionPattern, i: nat)
    requires PatternAt(s, i, p) && forall j :: 0 <= j < i ==> !PatternAt(s, j, p)
    ensures PatternIndex(s, p) == Some(i)
  {
  }

  /** `match[1]` of a match of `p` at `i`: the date text after the lead. */
  function Capture(s: string, i: nat, p: ExtractionPattern): (c: string)
    requires PatternAt(s, i, p)
    ensures |c| == Width(p.shape) && ShapeAt(c, 0, p.shape)
  {
    var lo := i + |LeadText(p.lead)|;
    s[lo..lo + Width(p.shape)]
  }

  /** `s.match(p)[1]` for the leftmost match of `p`, if any. */
  function PatternMatch(s: string, p: ExtractionPattern): (r: Option<string>)
    ensures r.Some? <==> PatternIndex(s, p).Some?
  {
    match PatternIndex(s, p)
    case Some(i) => Some(Capture(s, i, p))
    case None => None
  }

  /** The index in `Patterns` of the first pattern that matches `s` anywhere. */
  function FirstPattern(s: string): (r: Option<nat>)
    ensures r.Some? ==> r.value < |Patterns| && PatternMatch(s, Patterns[r.value]).Some?
    ensures r.Some? ==> forall k :: 0 <= k < r.value ==> PatternMatch(s, Patterns[k]).None?
    ensures r.None? ==> forall k :: 0 <= k < |Patterns| ==> PatternMatch(s, Patterns[k]).None?
  {
    var q := (k: nat) => k < |Patterns| && PatternMatch(s, Patterns[k]).Some?;
    assert forall k: nat :: q(k) == (k < |Patterns| && PatternMatch(s, Patterns[k]).Some?);
    FirstIndex(|Patterns|, 0, q)
  }

  /** What `extractValidityDate(content)` returns. */
  function ValidityDateIn(content: string, year: nat): Option<string>
  {
    match FirstPattern(content)
    case Some(k) => Normalized(PatternMatch(content, Patterns[k]).value, year)
    case None => None
  }

  /** `extractValidityDate`: tries each pattern in turn; the first that matches decides. */
  method ExtractValidityDate(content: string, year: nat) returns (r: Option<string>)
    ensures r == ValidityDateIn(content, year)
  {
    var k := 0;
    while k < |Patterns|
      invariant 0 <= k <= |Patterns|
      invariant forall j :: 0 <= j < k ==> PatternMatch(content, Patterns[j]).None?
    {
      var m := PatternMatch(content, Patterns[k]);
      if m.Some? && m.value != "" {
        assert FirstPattern(content) == Some(k);
        r := ParseValidityDate(m.value, year);
        return;
      }
      k := k + 1;
    }
    return None;
  }

  /** A capture parses to the date it spells. */
  lemma CaptureNormalized(c: string, f: DateFormat, year: nat)
    requires |c| == Width(f) && ShapeAt(c, 0, f)
    ensures Normalized(c, year) == Some(Render(c, 0, f, year))
  {
    if f == DayMonthYear {
      NormalizedFirstFullDate(c, year, 0);
    } else {
      NormalizedFirstDayMonth(c, year, 0);
    }
  }

  /**
   * The first pattern IN LIST ORDER that matches anywhere decides the
   * result, wherever in the text the other patterns match.
   */
  lemma FirstPatternWins(content: string, year: nat, k: nat)
    requires k < |Patterns|
    requires PatternMatch(content, Patterns[k]).Some?
    requires forall j :: 0 <= j < k ==> PatternMatch(content, Patterns[j]).None?
    ensures ValidityDateIn(content, year) == Normalized(PatternMatch(content, Patterns[k]).value, year)
  {
    assert FirstPattern(content) == Some(k);
  }

  /** Null comes out exactly when none of the four patterns matches. */
  lemma ExtractNone(content: string, year: nat)
    ensures ValidityDateIn(content, year).None? <==>
      forall k :: 0 <= k < |Patterns| ==> PatternMatch(content, Patterns[k]).None?
  {
    if FirstPattern(content).Some? {
      var k := FirstPattern(content).value;
      var p := Patterns[k];
      var i := PatternIndex(content, p).value;
      CaptureNormalized(Capture(content, i, p), p.shape, year);
    }
  }

  /**
   * When one of the three full-year patterns matches, the result is a full
   * date that does not depend on the current year.
   */
  lemma FullYearPatterns(content: string, k: nat, year1: nat, year2: nat)
    requires k < 3 && PatternMatch(content, Patterns[k]).Some?
    ensures ValidityDateIn(content, year1).Some?
    ensures ValidityDateIn(content, year1) == ValidityDateIn(content, year2)
  {
    var m := FirstPattern(content).value;
    assert m <= k;
    var p := Patterns[m];
    var c := Capture(content, PatternIndex(content, p).value, p);
    assert p.shape == DayMonthYear;
    NormalizedYearIndependent(c, 0, year1, year2);
  }

  /** A text that names "validade:" before "válido até". */
  const MixedLeads: string := "validade: 01/01/2024" + " ou válido até " + "02/02/2025"

  lemma MixedLeadsNoEarlierLead()
    ensures forall j | 0 <= j < 24 :: !PatternAt(MixedLeads, j, Patterns[0])
  {
    var p0 := Patterns[0];
    assert LeadText(p0.lead) == "válido até ";
    forall j | 0 <= j < 24 ensures !PatternAt(MixedLeads, j, p0) {
      if j == 0 {
        NotLitAtI(MixedLeads, j, "válido até ", 1);
      } else {
        NotLitAtI(MixedLeads, j, "válido até ", 0);
      }
    }
  }

  lemma MixedLeadsAt()
    ensures PatternAt(MixedLeads, 24, Patterns[0])
    ensures MixedLeads[35..45] == "02/02/2025"
  {
    assert LeadText(Patterns[0].lead) == "válido até ";
  }

  lemma MixedLeadsFirstPattern()
    ensures PatternIndex(MixedLeads, Patterns[0]) == Some(24)
    ensures Capture(MixedLeads, 24, Patterns[0]) == "02/02/2025"
    ensures FirstPattern(MixedLeads) == Some(0)
  {
    MixedLeadsNoEarlierLead();
    MixedLeadsAt();
    PatternIndexAt(MixedLeads, Patterns[0], 24);
  }

  lemma MixedLeadsSecondPattern()
    ensures PatternIndex(MixedLeads, Patterns[1]) == Some(0)
  {
    assert LeadText(Patterns[1].lead) == "validade: ";
    assert PatternAt(MixedLeads, 0, Patterns[1]);
  }

  /** The date "válido até" introduces in `MixedLeads`, normalised. */
  lemma MixedLeadsDate(year: nat)
    ensures Normalized("02/02/2025", year) == Some("2025-02-02")
  {
    var c := "02/02/2025";
    NormalizedFirstFullDate(c, year, 0);
    assert c[6..10] == "2025" && c[3..5] == "02" && c[0..2] == "02";
    assert "2025" + "-" + "02" + "-" + "02" == "2025-02-02";
  }

  /**
   * The first date phrase of `MixedLeads` is "validade:", yet the date comes
   * from the later "válido até": list order beats position in the text.
   */
  lemma ListOrderBeatsTextOrder(year: nat)
    ensures PatternIndex(MixedLeads, Patterns[1]) == Some(0)
    ensures PatternIndex(MixedLeads, Patterns[0]) == Some(24)
    ensures ValidityDateIn(MixedLeads, year) == Some("2025-02-02")
  {
    MixedLeadsSecondPattern();
    MixedLeadsFirstPattern();
    MixedLeadsDate(year);
  }
}
