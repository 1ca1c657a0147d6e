/**
 * The collection pipeline of `ComparemaniaScraper`: option resolution,
 * partner discovery on the home page, promotion extraction per partner
 * page, the landing-page step that fills in the direct link and validity,
 * bonus-promotion collection, the orchestration that fills `results`, and
 * the plain-text digest.
 *
 * Fetching and HTML parsing are replaced by their outcome: a page is either
 * `FetchFailed` or the sequence of tuples the selectors would have found.
 * The browser session is replaced by a `Landing` per promotion, the clock by
 * a `year`, a `today` string and a `timestamp`, and `toLocaleDateString`
 * by a function parameter.
 */
module Scraper {
  import opened Wrappers
  import opened Strings
  import opened DateNormalizer
  import opened TitleParser
  import opened Sequences

  const BaseUrl: string := "https://www.comparemania.com.br"

  datatype PromotionType = Points | Cashback

  datatype Partner = Partner(name: string, url: string, kind: PromotionType)

  /** An anchor of the home page: its `href` attribute (when it has one) and its text. */
  datatype Link = Link(href: Option<string>, text: string)

  datatype Promotion = Promotion(
    store: string,
    program: string,
    value: string,
    kind: PromotionType,
    isProduct: bool,
    url: string,
    directUrl: Option<string>,
    validUntil: Option<string>)

  /** A `.pontos-milhas` or `.cashback` element: the text of its name and value children. */
  datatype Block = Block(programName: string, value: string)

  datatype StorePage = StorePage(pointsBlocks: seq<Block>, cashbackBlocks: seq<Block>)

  /** A `.promocao-bonificada` element: the text of its title and validity children. */
  datatype BonusBlock = BonusBlock(title: string, validity: string)

  /** The outcome of an HTTP GET followed by parsing. */
  datatype Fetch<T> = FetchFailed | Fetched(document: T)

  /**
   * What the browser session did for one promotion: the browser could not be
   * launched or closed (the error escapes); the session failed or found no
   * store button (the promotion is left as it is); or it landed on
   * `finalUrl`, with the page content when reading it succeeded.
   */
  datatype Landing = BrowserFailed | NoLanding | Landed(finalUrl: string, content: Option<string>)

  datatype BonusPromotion = BonusPromotion(
    title: string,
    fromProgram: Option<string>,
    toProgram: Option<string>,
    bonusValue: Option<string>,
    validUntil: Option<string>)

  /** The options object given to the constructor: `None` for a key that is absent. */
  datatype GivenOptions = GivenOptions(
    maxStores: Option<int>,
    includePointsPrograms: Option<bool>,
    includeCashbackPrograms: Option<bool>,
    includeBonusPromotions: Option<bool>,
    timeout: Option<int>)

  datatype Options = Options(
    maxStores: int,
    includePointsPrograms: bool,
    includeCashbackPrograms: bool,
    includeBonusPromotions: bool,
    timeout: int)

  datatype Results = Results(
    promotions: seq<Promotion>,
    bonusPromotions: seq<BonusPromotion>,
    timestamp: string)

  // ---------------------------------------------------------------- options

  /** `x || d` on an optional number: absent and 0 are falsy. */
  function OrElse(x: Option<int>, d: int): int
  {
    if x.Some? && x.value != 0 then x.value else d
  }

  /** `x !== false` on an optional flag. */
  function NotFalse(x: Option<bool>): bool
  {
    x != Some(false)
  }

  /** One key of a trailing `...options` spread: a present key overrides. */
  function Spread<T>(x: Option<T>, base: T): T
  {
    if x.Some? then x.value else base
  }

  /**
   * The constructor's option object: defaults computed with `||` and
   * `!== false`, then overridden by the spread of the given options. The
   * spread comes last, so a given value always wins, 0 included.
   */
  function Resolve(given: GivenOptions): (r: Options)
    ensures given.maxStores.None? ==> r.maxStores == 10
    ensures given.maxStores.Some? ==> r.maxStores == given.maxStores.value
    ensures r.includePointsPrograms <==> given.includePointsPrograms != Some(false)
    ensures r.includeCashbackPrograms <==> given.includeCashbackPrograms != Some(false)
    ensures r.includeBonusPromotions <==> given.includeBonusPromotions != Some(false)
    ensures given.timeout.None? ==> r.timeout == 30000
    ensures given.timeout.Some? ==> r.timeout == given.timeout.value
  {
    var defaults := Options(
      OrElse(given.maxStores, 10),
      NotFalse(given.includePointsPrograms),
      NotFalse(given.includeCashbackPrograms),
      NotFalse(given.includeBonusPromotions),
      OrElse(given.timeout, 30000));
    Options(
      Spread(given.maxStores, defaults.maxStores),
      Spread(given.includePointsPrograms, defaults.includePointsPrograms),
      Spread(given.includeCashbackPrograms, defaults.includeCashbackPrograms),
      Spread(given.includeBonusPromotions, defaults.includeBonusPromotions),
      Spread(given.timeout, defaults.timeout))
  }

  function Min(a: int, b: int): int { if a <= b then a else b }

  function Max(a: int, b: int): int { if a >= b then a else b }

  /**
   * The partners `collectPromotions` visits: `partners.slice(0, maxStores)`
   * when `maxStores` is truthy, all of them when it is 0. A negative bound
   * counts from the end, as `slice` does.
   */
  function StoresToProcess(partners: seq<Partner>, maxStores: int): (r: seq<Partner>)
    ensures r <= partners
    ensures maxStores == 0 ==> r == partners
    ensures maxStores > 0 ==> |r| == Min(maxStores, |partners|)
    ensures maxStores < 0 ==> |r| == Max(0, |partners| + maxStores)
  {
    if maxStores != 0 then
      var end := if maxStores >= 0 then Min(maxStores, |partners|) else Max(0, |partners| + maxStores);
      partners[..end]
    else partners
  }

  // ------------------------------------------------------- partner discovery

  /** The hrefs `getPartners` looks at. */
  predicate IsStoreHref(h: string)
  {
    Contains(h, "cashback-") || Contains(h, "pontos-")
  }

  /** `text || href.split('-').pop()`, where `text` is the link's text trimmed. */
  function PartnerName(h: string, text: string): (name: string)
    ensures Trim(text) != "" ==> name == Trim(text)
    ensures Trim(text) == "" ==>
      |name| <= |h| && '-' !in name && name == h[|h| - |name|..] && (|name| < |h| ==> h[|h| - |name| - 1] == '-')
  {
    var t := Trim(text);
    if t != "" then t else LastSegment(h, '-')
  }

  /**
   * The partner a link stands for, before the empty-name and duplicate
   * checks: only store hrefs qualify; the type is cashback exactly when the
   * href holds `cashback-`; a relative href is put behind the base URL.
   */
  function Candidate(l: Link): (r: Option<Partner>)
    ensures r.Some? <==> l.href.Some? && IsStoreHref(l.href.value)
    ensures r.Some? ==> (r.value.kind == Cashback <==> Contains(l.href.value, "cashback-"))
    ensures r.Some? ==> r.value.name == PartnerName(l.href.value, l.text)
    ensures r.Some? && StartsWith(l.href.value, "http") ==> r.value.url == l.href.value
    ensures r.Some? && !StartsWith(l.href.value, "http") ==> r.value.url == BaseUrl + l.href.value
  {
    if l.href.Some? && l.href.value != "" && IsStoreHref(l.href.value) then
      var h := l.href.value;
      Some(Partner(
        PartnerName(h, l.text),
        if StartsWith(h, "http") then h else BaseUrl + h,
        if Contains(h, "cashback-") then Cashback else Points))
    else None
  }

  predicate HasName(ps: seq<Partner>, name: string)
  {
    exists k | 0 <= k < |ps| :: ps[k].name == name
  }

  /**
   * The candidate of each link, in document order: a link stands for a
   * partner exactly when its href names a store page, and that partner is
   * named after the link and typed by its href.
   */
  function Candidates(links: seq<Link>): (r: seq<Option<Partner>>)
    ensures |r| == |links|
    ensures forall i | 0 <= i < |links| :: r[i].Some? <==> links[i].href.Some? && IsStoreHref(links[i].href.value)
    ensures forall i | 0 <= i < |links| && r[i].Some? ::
      r[i].value.name == PartnerName(links[i].href.value, links[i].text)
      && (r[i].value.kind == Cashback <==> Contains(links[i].href.value, "cashback-"))
  {
    seq(|links|, i requires 0 <= i < |links| => Candidate(links[i]))
  }

  /** Whether candidate `c` is a partner called `name`. */
  predicate Names(c: Option<Partner>, name: string)
  {
    c.Some? && c.value.name == name
  }

  /** One step of the `.each` loop of `getPartners`, given the link's candidate. */
  function AddPartner(ps: seq<Partner>, c: Option<Partner>): seq<Partner>
  {
    match c
    case Some(p) => if p.name != "" && !HasName(ps, p.name) then ps + [p] else ps
    case None => ps
  }

  /** The partners `getPartners` collects from the candidates of a page's links, in document order. */
  function Discover(cs: seq<Option<Partner>>): seq<Partner>
  {
    if cs == [] then []
    else AddPartner(Discover(cs[..|cs| - 1]), cs[|cs| - 1])
  }

  /** What `getPartners` returns for a home-page fetch. */
  function PartnersOf(home: Fetch<seq<Link>>): seq<Partner>
  {
    match home
    case FetchFailed => []
    case Fetched(links) => Discover(Candidates(links))
  }

  /** Partner names are never empty and pairwise distinct. */
  lemma {:induction false} DiscoverDistinct(cs: seq<Option<Partner>>)
    ensures forall k | 0 <= k < |Discover(cs)| :: Discover(cs)[k].name != ""
    ensures forall j, k | 0 <= j < k < |Discover(cs)| :: Discover(cs)[j].name != Discover(cs)[k].name
  {
    if cs != [] {
      DiscoverDistinct(cs[..|cs| - 1]);
    }
  }

  /** Every candidate with a non-empty name leaves a partner of that name. */
  lemma {:induction false} DiscoverComplete(cs: seq<Option<Partner>>)
    ensures forall i | 0 <= i < |cs| && cs[i].Some? && cs[i].value.name != "" ::
      HasName(Discover(cs), cs[i].value.name)
  {
    if cs != [] {
      var init := cs[..|cs| - 1];
      DiscoverComplete(init);
      var ps := Discover(init);
      forall i | 0 <= i < |cs| && cs[i].Some? && cs[i].value.name != ""
        ensures HasName(Discover(cs), cs[i].value.name)
      {
        var name := cs[i].value.name;
        if i < |cs| - 1 {
          assert cs[i] == init[i];
          var k :| 0 <= k < |ps| && ps[k].name == name;
          assert Discover(cs)[k] == ps[k];
        } else if HasName(ps, name) {
          var k :| 0 <= k < |ps| && ps[k].name == name;
          assert Discover(cs)[k] == ps[k];
        } else {
          assert Discover(cs)[|ps|].name == name;
        }
      }
    }
  }

  /** Candidate `i` is the first that names `p`, and it is `p` itself. */
  predicate FirstNaming(cs: seq<Option<Partner>>, i: nat, p: Partner)
  {
    i < |cs| && cs[i] == Some(p)
    && forall j | 0 <= j < i :: !Names(cs[j], p.name)
  }

  /**
   * Every partner is a candidate, and the first candidate with its name:
   * the first occurrence wins.
   */
  lemma {:induction false} DiscoverFirstSeen(cs: seq<Option<Partner>>, k: nat)
    requires k < |Discover(cs)|
    ensures exists i: nat :: FirstNaming(cs, i, Discover(cs)[k])
  {
    var init := cs[..|cs| - 1];
    var last := cs[|cs| - 1];
    var ps := Discover(init);
    var r := Discover(cs);
    if k < |ps| {
      DiscoverFirstSeen(init, k);
      assert r[k] == ps[k];
      var i: nat :| FirstNaming(init, i, ps[k]);
      assert forall j | 0 <= j <= i :: cs[j] == init[j];
      assert FirstNaming(cs, i, r[k]);
    } else {
      DiscoverComplete(init);
      var p := last.value;
      assert r == ps + [p] && r[k] == p;
      assert !HasName(ps, p.name) && p.name != "";
      forall j | 0 <= j < |cs| - 1 ensures !Names(cs[j], p.name) {
        assert cs[j] == init[j];
      }
      assert FirstNaming(cs, |cs| - 1, r[k]);
    }
  }

  /** A name is first named at one index only. */
  lemma FirstNamingUnique(cs: seq<Option<Partner>>, i: nat, p: Partner, i2: nat, p2: Partner)
    requires FirstNaming(cs, i, p) && FirstNaming(cs, i2, p2) && p.name == p2.name
    ensures i == i2
  {
    if i < i2 {
      assert Names(cs[i], p2.name);
    } else if i2 < i {
      assert Names(cs[i2], p.name);
    }
  }

  /** The first naming in a prefix of the candidates is the first naming in all of them. */
  lemma FirstNamingPrefix(cs: seq<Option<Partner>>, i: nat, p: Partner)
    requires cs != [] && FirstNaming(cs[..|cs| - 1], i, p)
    ensures FirstNaming(cs, i, p)
  {
    assert forall j | 0 <= j <= i :: cs[j] == cs[..|cs| - 1][j];
  }

  /**
   * Partners come out in the document order of the links that first name
   * them, so a prefix of the result is the partners named first.
   */
  lemma {:induction false} DiscoverOrder(cs: seq<Option<Partner>>, j: nat, k: nat, ij: nat, ik: nat)
    requires j < k < |Discover(cs)|
    requires FirstNaming(cs, ij, Discover(cs)[j]) && FirstNaming(cs, ik, Discover(cs)[k])
    ensures ij < ik
  {
    var init := cs[..|cs| - 1];
    var ps := Discover(init);
    var r := Discover(cs);
    assert forall m | 0 <= m < |ps| :: r[m] == ps[m];
    DiscoverFirstSeen(init, j);
    var ij' :| FirstNaming(init, ij', ps[j]);
    FirstNamingPrefix(cs, ij', r[j]);
    FirstNamingUnique(cs, ij, r[j], ij', r[j]);
    if k < |ps| {
      DiscoverFirstSeen(init, k);
      var ik' :| FirstNaming(init, ik', ps[k]);
      FirstNamingPrefix(cs, ik', r[k]);
      FirstNamingUnique(cs, ik, r[k], ik', r[k]);
      DiscoverOrder(init, j, k, ij', ik');
    } else if ik < |cs| - 1 {
      var p := r[k];
      assert r == ps + [p] && !HasName(ps, p.name) && p.name != "";
      assert init[ik] == cs[ik] == Some(p);
      DiscoverComplete(init);
      assert false;
    }
  }

  // ------------------------------------------------------- store extraction

  /** A block whose programme and value texts are both non-empty after trimming. */
  predicate Filled(b: Block)
  {
    Trim(b.programName) != "" && Trim(b.value) != ""
  }

  /** The promotion a filled block becomes: its trimmed texts under the partner's name and URL. */
  function BlockRecord(partner: Partner, b: Block, kind: PromotionType): Promotion
  {
    Promotion(partner.name, Trim(b.programName), Trim(b.value), kind, false, partner.url, None, None)
  }

  /** The record one block yields: none unless both trimmed texts are non-empty. */
  function RecordOf(partner: Partner, b: Block, kind: PromotionType): seq<Promotion>
  {
    if Filled(b) then [BlockRecord(partner, b, kind)] else []
  }

  /** Extraction of one block type, as a function for `FlatMap`. */
  function RecordsFor(partner: Partner, kind: PromotionType): Block -> seq<Promotion>
  {
    (b: Block) => RecordOf(partner, b, kind)
  }

  /** The records of a sequence of blocks, in block order. */
  function Records(partner: Partner, blocks: seq<Block>, kind: PromotionType): seq<Promotion>
  {
    FlatMap(blocks, RecordsFor(partner, kind))
  }

  /** A record as extraction leaves it, before its landing page is visited. */
  predicate Unresolved(q: Promotion, partner: Partner, kind: PromotionType)
  {
    && q.store == partner.name && q.url == partner.url
    && q.kind == kind && !q.isProduct
    && q.program != "" && q.value != ""
    && q.directUrl.None? && q.validUntil.None?
  }

  /**
   * Every record carries the partner's name and URL, trimmed non-empty
   * programme and value texts, `isProduct` false and no link or validity yet.
   */
  lemma RecordsUnresolved(partner: Partner, blocks: seq<Block>, kind: PromotionType)
    ensures forall q | q in Records(partner, blocks, kind) :: Unresolved(q, partner, kind)
    ensures forall q | q in Records(partner, blocks, kind) :: IsTrimmed(q.program) && IsTrimmed(q.value)
  {
    forall q | q in Records(partner, blocks, kind)
      ensures Unresolved(q, partner, kind) && IsTrimmed(q.program) && IsTrimmed(q.value)
    {
      FlatMapFrom(blocks, RecordsFor(partner, kind), q);
      var i :| 0 <= i < |blocks| && q in RecordOf(partner, blocks[i], kind);
      assert IsTrimmed(Trim(blocks[i].programName)) && IsTrimmed(Trim(blocks[i].value));
    }
  }

  /** Records follow block order: the records of `a + b` are those of `a`, then those of `b`. */
  lemma RecordsConcat(partner: Partner, a: seq<Block>, b: seq<Block>, kind: PromotionType)
    ensures Records(partner, a + b, kind) == Records(partner, a, kind) + Records(partner, b, kind)
  {
    FlatMapConcat(a, b, RecordsFor(partner, kind));
  }

  /**
   * A block yields exactly one record when both its texts are non-empty
   * after trimming, and that record holds those trimmed texts under the
   * partner's name and URL; otherwise it yields none.
   */
  lemma RecordOfBlock(partner: Partner, b: Block, kind: PromotionType)
    ensures |Records(partner, [b], kind)| == (if Trim(b.programName) != "" && Trim(b.value) != "" then 1 else 0)
    ensures Trim(b.programName) != "" && Trim(b.value) != "" ==>
      Records(partner, [b], kind) == [Promotion(partner.name, Trim(b.programName), Trim(b.value), kind, false, partner.url, None, None)]
  {
    FlatMapOne(b, RecordsFor(partner, kind));
  }

  /** Every record extracted is the record of some filled block. */
  lemma RecordsElement(partner: Partner, blocks: seq<Block>, kind: PromotionType, q: Promotion)
    requires q in Records(partner, blocks, kind)
    ensures exists i | 0 <= i < |blocks| :: Filled(blocks[i]) && q == BlockRecord(partner, blocks[i], kind)
  {
    var i := FlatMapIndex(blocks, RecordsFor(partner, kind), q);
    var b := blocks[i];
    assert RecordsFor(partner, kind)(b) == RecordOf(partner, b, kind);
    assert Filled(b) && q == BlockRecord(partner, b, kind);
  }

  /**
   * The records extracted are exactly the promotions made of the filled
   * blocks: each holds one filled block's trimmed programme and value, and
   * every filled block contributes its own.
   */
  lemma RecordsFromBlocks(partner: Partner, blocks: seq<Block>, kind: PromotionType)
    ensures forall q :: q in Records(partner, blocks, kind) <==>
      exists i | 0 <= i < |blocks| ::
        Trim(blocks[i].programName) != "" && Trim(blocks[i].value) != ""
        && q == Promotion(partner.name, Trim(blocks[i].programName), Trim(blocks[i].value), kind, false, partner.url, None, None)
  {
    forall q | q in Records(partner, blocks, kind)
      ensures exists i | 0 <= i < |blocks| :: Filled(blocks[i]) && q == BlockRecord(partner, blocks[i], kind)
    {
      RecordsElement(partner, blocks, kind, q);
    }
    forall q, i | 0 <= i < |blocks| && Filled(blocks[i]) && q == BlockRecord(partner, blocks[i], kind)
      ensures q in Records(partner, blocks, kind)
    {
      assert RecordsFor(partner, kind)(blocks[i]) == [q];
      FlatMapTo(blocks, RecordsFor(partner, kind), i, q);
    }
  }

  /** The records a store page yields, points blocks first, each group gated by its flag. */
  function RawPromotions(opts: Options, partner: Partner, page: StorePage): seq<Promotion>
  {
    (if opts.includePointsPrograms then Records(partner, page.pointsBlocks, Points) else [])
    + (if opts.includeCashbackPrograms then Records(partner, page.cashbackBlocks, Cashback) else [])
  }

  /**
   * `getDirectLinkAndValidity`: what a landing does to a promotion. A
   * browser failure escapes; otherwise only `directUrl` and `validUntil`
   * can change, the first to the final URL, the second to the validity
   * found in the landing page's content.
   */
  function Resolved(p: Promotion, landing: Landing, year: nat): (r: Option<Promotion>)
    ensures r.None? <==> landing.BrowserFailed?
    ensures r.Some? ==> r.value.(directUrl := p.directUrl, validUntil := p.validUntil) == p
    ensures landing.NoLanding? ==> r == Some(p)
    ensures landing.Landed? ==> r.value.directUrl == Some(landing.finalUrl)
    ensures landing.Landed? && landing.content.None? ==> r.value.validUntil == p.validUntil
    ensures landing.Landed? && landing.content.Some? ==>
      r.value.validUntil == ValidityDateIn(landing.content.value, year)
  {
    match landing
    case BrowserFailed => None
    case NoLanding => Some(p)
    case Landed(u, content) =>
      var withLink := p.(directUrl := Some(u));
      if content.Some? then Some(withLink.(validUntil := ValidityDateIn(content.value, year)))
      else Some(withLink)
  }

  /** The promotions after each has been through its landing, in order; `None` once one escapes. */
  function ResolveAll(ps: seq<Promotion>, browse: Promotion -> Landing, year: nat): Option<seq<Promotion>>
  {
    if ps == [] then Some([])
    else match ResolveAll(ps[..|ps| - 1], browse, year)
      case None => None
      case Some(qs) =>
        match Resolved(ps[|ps| - 1], browse(ps[|ps| - 1]), year)
        case None => None
        case Some(q) => Some(qs + [q])
  }

  /** Resolution fails exactly when some promotion's browser fails. */
  lemma {:induction false} ResolveAllFails(ps: seq<Promotion>, browse: Promotion -> Landing, year: nat)
    ensures ResolveAll(ps, browse, year).None? <==> exists i | 0 <= i < |ps| :: browse(ps[i]).BrowserFailed?
  {
    if ps != [] {
      var init := ps[..|ps| - 1];
      ResolveAllFails(init, browse, year);
      assert forall i | 0 <= i < |init| :: init[i] == ps[i];
      if ResolveAll(init, browse, year).None? {
        var i :| 0 <= i < |init| && browse(init[i]).BrowserFailed?;
        assert browse(ps[i]).BrowserFailed?;
      }
    }
  }

  /** Successful resolution maps each promotion through its own landing. */
  lemma {:induction false} ResolveAllPointwise(ps: seq<Promotion>, browse: Promotion -> Landing, year: nat)
    ensures ResolveAll(ps, browse, year).Some? ==>
      |ResolveAll(ps, browse, year).value| == |ps|
      && forall i | 0 <= i < |ps| :: Resolved(ps[i], browse(ps[i]), year) == Some(ResolveAll(ps, browse, year).value[i])
  {
    if ps != [] {
      var init := ps[..|ps| - 1];
      ResolveAllPointwise(init, browse, year);
      assert forall i | 0 <= i < |init| :: init[i] == ps[i];
    }
  }

  /** What `getStorePromotions(partner)` returns: nothing when the page or a browser fails. */
  function StorePromotions(opts: Options, partner: Partner, page: Fetch<StorePage>,
                           browse: Promotion -> Landing, year: nat): seq<Promotion>
  {
    match page
    case FetchFailed => []
    case Fetched(doc) =>
      match ResolveAll(RawPromotions(opts, partner, doc), browse, year)
      case Some(ps) => ps
      case None => []
  }

  /** A partner whose page cannot be fetched, or one of whose promotions makes the browser fail. */
  predicate PartnerFails(opts: Options, partner: Partner, page: Fetch<StorePage>, browse: Promotion -> Landing)
  {
    page.FetchFailed?
    || exists q | q in RawPromotions(opts, partner, page.document) :: browse(q).BrowserFailed?
  }

  /** A failing partner yields no promotions. */
  lemma StoreFailureEmpties(opts: Options, partner: Partner, page: Fetch<StorePage>,
                            browse: Promotion -> Landing, year: nat)
    requires PartnerFails(opts, partner, page, browse)
    ensures StorePromotions(opts, partner, page, browse, year) == []
  {
    if page.Fetched? {
      var raw := RawPromotions(opts, partner, page.document);
      var q :| q in raw && browse(q).BrowserFailed?;
      var i :| 0 <= i < |raw| && raw[i] == q;
      ResolveAllFails(raw, browse, year);
    }
  }

  /** The number of points records a page contributes. */
  function PointsCount(opts: Options, partner: Partner, page: StorePage): nat
  {
    if opts.includePointsPrograms then |Records(partner, page.pointsBlocks, Points)| else 0
  }

  /** Unresolved points records followed by unresolved cashback records, by position. */
  lemma UnresolvedRuns(pts: seq<Promotion>, cbs: seq<Promotion>, partner: Partner)
    requires forall q | q in pts :: Unresolved(q, partner, Points)
    requires forall q | q in cbs :: Unresolved(q, partner, Cashback)
    ensures forall i | 0 <= i < |pts + cbs| ::
      Unresolved((pts + cbs)[i], partner, if i < |pts| then Points else Cashback)
  {
    forall i | 0 <= i < |pts + cbs|
      ensures Unresolved((pts + cbs)[i], partner, if i < |pts| then Points else Cashback)
    {
      if i < |pts| {
        assert (pts + cbs)[i] == pts[i];
      } else {
        assert (pts + cbs)[i] == cbs[i - |pts|];
      }
    }
  }

  /** Before resolution: the points records, then the cashback records, all unresolved. */
  lemma RawPromotionsShape(opts: Options, partner: Partner, page: StorePage)
    ensures var raw := RawPromotions(opts, partner, page);
      var n := PointsCount(opts, partner, page);
      && n <= |raw|
      && (forall i | 0 <= i < |raw| :: Unresolved(raw[i], partner, if i < n then Points else Cashback))
      && (!opts.includeCashbackPrograms ==> |raw| == n)
  {
    var pts := if opts.includePointsPrograms then Records(partner, page.pointsBlocks, Points) else [];
    var cbs := if opts.includeCashbackPrograms then Records(partner, page.cashbackBlocks, Cashback) else [];
    assert RawPromotions(opts, partner, page) == pts + cbs;
    RecordsUnresolved(partner, page.pointsBlocks, Points);
    RecordsUnresolved(partner, page.cashbackBlocks, Cashback);
    UnresolvedRuns(pts, cbs, partner);
  }

  /** A promotion with its link and validity cleared again. */
  function Stripped(q: Promotion): Promotion
  {
    q.(directUrl := None, validUntil := None)
  }

  /** Resolution touches only the link and the validity, position by position. */
  lemma ResolvedRuns(raw: seq<Promotion>, r: seq<Promotion>, partner: Partner, n: nat,
                     browse: Promotion -> Landing, year: nat)
    requires |r| == |raw|
    requires forall i | 0 <= i < |raw| :: Resolved(raw[i], browse(raw[i]), year) == Some(r[i])
    requires forall i | 0 <= i < |raw| :: Unresolved(raw[i], partner, if i < n then Points else Cashback)
    ensures forall i | 0 <= i < |r| :: Unresolved(Stripped(r[i]), partner, if i < n then Points else Cashback)
  {
    forall i | 0 <= i < |r|
      ensures Unresolved(Stripped(r[i]), partner, if i < n then Points else Cashback)
    {
      assert Resolved(raw[i], browse(raw[i]), year) == Some(r[i]);
      assert Stripped(r[i]) == raw[i];
    }
  }

  /** Records laid out as `n` points records, then cashback records. */
  lemma KindRuns(r: seq<Promotion>, partner: Partner, n: nat)
    requires forall i | 0 <= i < |r| :: Unresolved(Stripped(r[i]), partner, if i < n then Points else Cashback)
    ensures forall q | q in r ::
      q.store == partner.name && q.url == partner.url && !q.isProduct
      && q.program != "" && q.value != ""
    ensures forall i, j | 0 <= i < j < |r| :: r[i].kind == Cashback ==> r[j].kind == Cashback
    ensures n == 0 ==> forall q | q in r :: q.kind == Cashback
    ensures |r| <= n ==> forall q | q in r :: q.kind == Points
  {
    forall q | q in r
      ensures q.store == partner.name && q.url == partner.url && !q.isProduct
        && q.program != "" && q.value != ""
      ensures n == 0 ==> q.kind == Cashback
      ensures |r| <= n ==> q.kind == Points
    {
      var i :| 0 <= i < |r| && r[i] == q;
      assert Unresolved(Stripped(r[i]), partner, if i < n then Points else Cashback);
    }
    forall i, j | 0 <= i < j < |r| && r[i].kind == Cashback ensures r[j].kind == Cashback {
      assert Unresolved(Stripped(r[i]), partner, if i < n then Points else Cashback);
      assert Unresolved(Stripped(r[j]), partner, if j < n then Points else Cashback);
    }
  }

  /**
   * What a partner yields: records with the partner's name and URL, never a
   * product, with non-empty trimmed program and value; all points records
   * before all cashback records; none of a type whose flag is off.
   */
  lemma StorePromotionsShape(opts: Options, partner: Partner, page: Fetch<StorePage>,
                             browse: Promotion -> Landing, year: nat)
    ensures var r := StorePromotions(opts, partner, page, browse, year);
      && (forall q | q in r ::
            q.store == partner.name && q.url == partner.url && !q.isProduct
            && q.program != "" && q.value != "")
      && (forall i, j | 0 <= i < j < |r| :: r[i].kind == Cashback ==> r[j].kind == Cashback)
      && (!opts.includePointsPrograms ==> forall q | q in r :: q.kind == Cashback)
      && (!opts.includeCashbackPrograms ==> forall q | q in r :: q.kind == Points)
  {
    if page.Fetched? {
      var raw := RawPromotions(opts, partner, page.document);
      var n := PointsCount(opts, partner, page.document);
      RawPromotionsShape(opts, partner, page.document);
      ResolveAllPointwise(raw, browse, year);
      var o := ResolveAll(raw, browse, year);
      if o.Some? {
        ResolvedRuns(raw, o.value, partner, n, browse, year);
        KindRuns(o.value, partner, n);
      }
    }
  }

  // ------------------------------------------------------- bonus promotions

  /**
   * The promotion a block with a title stands for: the trimmed title, the
   * fields `parsePromotionTitle` finds in it, and the trimmed validity text
   * normalised.
   */
  function BonusRecord(b: BonusBlock, year: nat): (q: BonusPromotion)
    ensures q.title == Trim(b.title)
    ensures ParsePromotionTitle(q.title) == ParsedTitle(q.title, q.fromProgram, q.toProgram, q.bonusValue)
    ensures q.validUntil == Normalized(Trim(b.validity), year)
  {
    var t := ParsePromotionTitle(Trim(b.title));
    BonusPromotion(t.title, t.fromProgram, t.toProgram, t.bonusValue, Normalized(Trim(b.validity), year))
  }

  /** The bonus promotion one block yields: none when its trimmed title is empty. */
  function BonusOf(b: BonusBlock, year: nat): seq<BonusPromotion>
  {
    if Trim(b.title) != "" then [BonusRecord(b, year)] else []
  }

  /** Collection of one bonus block, as a function for `FlatMap`. */
  function BonusFor(year: nat): BonusBlock -> seq<BonusPromotion>
  {
    (b: BonusBlock) => BonusOf(b, year)
  }

  /** The bonus promotions of a sequence of blocks, in block order. */
  function BonusFrom(blocks: seq<BonusBlock>, year: nat): seq<BonusPromotion>
  {
    FlatMap(blocks, BonusFor(year))
  }

  /** What `getBonusPromotions()` returns for a fetch of the bonus page. */
  function BonusPromotionsOf(page: Fetch<seq<BonusBlock>>, year: nat): seq<BonusPromotion>
  {
    match page
    case FetchFailed => []
    case Fetched(blocks) => BonusFrom(blocks, year)
  }

  /**
   * A well-formed bonus promotion: a non-empty trimmed title, the fields
   * `parsePromotionTitle` makes of it, and a validity that is absent or a
   * normalised date.
   */
  ghost predicate WellFormedBonus(q: BonusPromotion, year: nat)
  {
    q.title != "" && IsTrimmed(q.title)
    && ParsePromotionTitle(q.title) == ParsedTitle(q.title, q.fromProgram, q.toProgram, q.bonusValue)
    && exists v: string :: Normalized(v, year) == q.validUntil
  }

  /**
   * A block yields one promotion exactly when its trimmed title is
   * non-empty, and none otherwise; that promotion echoes the trimmed title,
   * carries the fields parsed from it and the block's validity text
   * normalised, and is well formed.
   */
  lemma BonusOfShape(b: BonusBlock, year: nat)
    ensures |BonusOf(b, year)| <= 1
    ensures |BonusOf(b, year)| == 1 <==> Trim(b.title) != ""
    ensures Trim(b.title) != "" ==>
      var t := ParsePromotionTitle(Trim(b.title));
      BonusOf(b, year)
      == [BonusPromotion(Trim(b.title), t.fromProgram, t.toProgram, t.bonusValue, Normalized(Trim(b.validity), year))]
    ensures forall q | q in BonusOf(b, year) :: WellFormedBonus(q, year)
  {
    if Trim(b.title) != "" {
      BonusRecordWellFormed(b, year);
    }
  }

  /** The promotion of a block with a title is well formed. */
  lemma BonusRecordWellFormed(b: BonusBlock, year: nat)
    requires Trim(b.title) != ""
    ensures WellFormedBonus(BonusRecord(b, year), year)
  {
    var q := BonusRecord(b, year);
    assert Normalized(Trim(b.validity), year) == q.validUntil;
  }

  /** Every promotion collected is the record of some titled block. */
  lemma BonusFromElement(blocks: seq<BonusBlock>, year: nat, q: BonusPromotion)
    requires q in BonusFrom(blocks, year)
    ensures exists i | 0 <= i < |blocks| :: Trim(blocks[i].title) != "" && q == BonusRecord(blocks[i], year)
  {
    var i := FlatMapIndex(blocks, BonusFor(year), q);
    var b := blocks[i];
    assert BonusFor(year)(b) == BonusOf(b, year);
    assert Trim(b.title) != "" && q == BonusRecord(b, year);
  }

  /**
   * The promotions collected are exactly those of the blocks with a
   * non-empty trimmed title, and each is well formed.
   */
  lemma BonusFromShape(blocks: seq<BonusBlock>, year: nat)
    ensures forall q | q in BonusFrom(blocks, year) :: WellFormedBonus(q, year)
    ensures forall q :: q in BonusFrom(blocks, year) <==>
      exists i | 0 <= i < |blocks| :: Trim(blocks[i].title) != "" && q == BonusRecord(blocks[i], year)
  {
    forall q | q in BonusFrom(blocks, year)
      ensures WellFormedBonus(q, year)
      ensures exists i | 0 <= i < |blocks| :: Trim(blocks[i].title) != "" && q == BonusRecord(blocks[i], year)
    {
      BonusFromElement(blocks, year, q);
      var i :| 0 <= i < |blocks| && Trim(blocks[i].title) != "" && q == BonusRecord(blocks[i], year);
      BonusRecordWellFormed(blocks[i], year);
    }
    forall q, i | 0 <= i < |blocks| && Trim(blocks[i].title) != "" && q == BonusRecord(blocks[i], year)
      ensures q in BonusFrom(blocks, year)
    {
      assert q in BonusFor(year)(blocks[i]);
      FlatMapTo(blocks, BonusFor(year), i, q);
    }
  }

  /** How many blocks have a non-empty trimmed title. */
  function TitledCount(blocks: seq<BonusBlock>): nat
  {
    if blocks == [] then 0
    else TitledCount(blocks[..|blocks| - 1]) + (if Trim(blocks[|blocks| - 1].title) != "" then 1 else 0)
  }

  /** One bonus promotion per block with a title, and none for the others. */
  lemma {:induction false} BonusFromCount(blocks: seq<BonusBlock>, year: nat)
    ensures |BonusFrom(blocks, year)| == TitledCount(blocks)
  {
    if blocks != [] {
      BonusFromCount(blocks[..|blocks| - 1], year);
    }
  }

  /** Bonus promotions follow block order. */
  lemma BonusFromConcat(a: seq<BonusBlock>, b: seq<BonusBlock>, year: nat)
    ensures BonusFrom(a + b, year) == BonusFrom(a, year) + BonusFrom(b, year)
  {
    FlatMapConcat(a, b, BonusFor(year));
  }

  // ---------------------------------------------------------- orchestration

  /** The filter callback `promo => !promo.isProduct`, as a function for `FlatMap`. */
  function KeepNonProduct(q: Promotion): seq<Promotion>
  {
    if q.isProduct then [] else [q]
  }

  /** `promotions.filter(promo => !promo.isProduct)`. */
  function NonProduct(ps: seq<Promotion>): seq<Promotion>
  {
    FlatMap(ps, KeepNonProduct)
  }

  /** The filter keeps exactly the non-product promotions. */
  lemma NonProductMembers(ps: seq<Promotion>)
    ensures forall q :: q in NonProduct(ps) <==> q in ps && !q.isProduct
  {
    forall q ensures q in NonProduct(ps) <==> q in ps && !q.isProduct {
      if q in NonProduct(ps) {
        FlatMapFrom(ps, KeepNonProduct, q);
      }
      if q in ps && !q.isProduct {
        var i :| 0 <= i < |ps| && ps[i] == q;
        FlatMapTo(ps, KeepNonProduct, i, q);
      }
    }
  }

  /** The filter removes nothing from a list without products. */
  lemma {:induction false} NonProductKeepsAll(ps: seq<Promotion>)
    requires forall q | q in ps :: !q.isProduct
    ensures NonProduct(ps) == ps
  {
    if ps != [] {
      var init := ps[..|ps| - 1];
      assert forall q | q in init :: q in ps;
      NonProductKeepsAll(init);
      assert ps == init + [ps[|ps| - 1]];
    }
  }

  /** What one partner adds to `results.promotions`. */
  function PartnerYield(opts: Options, storePage: Partner -> Fetch<StorePage>,
                        browse: Promotion -> Landing, year: nat): Partner -> seq<Promotion>
  {
    (p: Partner) => NonProduct(StorePromotions(opts, p, storePage(p), browse, year))
  }

  /** What the partner loop of `collectPromotions` appends, partner after partner. */
  function Collected(opts: Options, stores: seq<Partner>, storePage: Partner -> Fetch<StorePage>,
                     browse: Promotion -> Landing, year: nat): seq<Promotion>
  {
    FlatMap(stores, PartnerYield(opts, storePage, browse, year))
  }

  /** The product filter never removes anything a partner page yields. */
  lemma StoreHasNoProducts(opts: Options, p: Partner, page: Fetch<StorePage>,
                           browse: Promotion -> Landing, year: nat)
    ensures NonProduct(StorePromotions(opts, p, page, browse, year)) == StorePromotions(opts, p, page, browse, year)
  {
    StorePromotionsShape(opts, p, page, browse, year);
    NonProductKeepsAll(StorePromotions(opts, p, page, browse, year));
  }

  /** So what a partner adds is exactly what its page yields. */
  lemma YieldIsStorePromotions(opts: Options, p: Partner, storePage: Partner -> Fetch<StorePage>,
                               browse: Promotion -> Landing, year: nat)
    ensures PartnerYield(opts, storePage, browse, year)(p) == StorePromotions(opts, p, storePage(p), browse, year)
  {
    StoreHasNoProducts(opts, p, storePage(p), browse, year);
  }

  /** Partners add their promotions in partner order. */
  lemma CollectedConcat(opts: Options, a: seq<Partner>, b: seq<Partner>, storePage: Partner -> Fetch<StorePage>,
                        browse: Promotion -> Landing, year: nat)
    ensures Collected(opts, a + b, storePage, browse, year)
         == Collected(opts, a, storePage, browse, year) + Collected(opts, b, storePage, browse, year)
  {
    FlatMapConcat(a, b, PartnerYield(opts, storePage, browse, year));
  }

  /** One more partner appends exactly what its page yields. */
  lemma CollectedStep(opts: Options, a: seq<Partner>, p: Partner, storePage: Partner -> Fetch<StorePage>,
                      browse: Promotion -> Landing, year: nat)
    ensures Collected(opts, a + [p], storePage, browse, year)
         == Collected(opts, a, storePage, browse, year) + StorePromotions(opts, p, storePage(p), browse, year)
  {
    CollectedConcat(opts, a, [p], storePage, browse, year);
    FlatMapOne(p, PartnerYield(opts, storePage, browse, year));
    YieldIsStorePromotions(opts, p, storePage, browse, year);
  }

  /** The step the partner loop takes at position `i`. */
  lemma CollectedPrefixStep(opts: Options, stores: seq<Partner>, i: nat, storePage: Partner -> Fetch<StorePage>,
                            browse: Promotion -> Landing, year: nat)
    requires i < |stores|
    ensures Collected(opts, stores[..i + 1], storePage, browse, year)
         == Collected(opts, stores[..i], storePage, browse, year)
            + StorePromotions(opts, stores[i], storePage(stores[i]), browse, year)
  {
    assert stores[..i + 1] == stores[..i] + [stores[i]];
    CollectedStep(opts, stores[..i], stores[i], storePage, browse, year);
  }

  /** A failing partner adds nothing, and the partners after it still add theirs. */
  lemma FailedPartnerAddsNothing(opts: Options, a: seq<Partner>, p: Partner, b: seq<Partner>,
                                 storePage: Partner -> Fetch<StorePage>, browse: Promotion -> Landing, year: nat)
    requires PartnerFails(opts, p, storePage(p), browse)
    ensures Collected(opts, a + [p] + b, storePage, browse, year)
         == Collected(opts, a, storePage, browse, year) + Collected(opts, b, storePage, browse, year)
  {
    StoreFailureEmpties(opts, p, storePage(p), browse, year);
    CollectedConcat(opts, a + [p], b, storePage, browse, year);
    CollectedStep(opts, a, p, storePage, browse, year);
  }

  /** Nothing collected is a product, and everything collected belongs to a visited partner. */
  lemma CollectedFromStores(opts: Options, stores: seq<Partner>, storePage: Partner -> Fetch<StorePage>,
                            browse: Promotion -> Landing, year: nat)
    ensures forall q | q in Collected(opts, stores, storePage, browse, year) ::
      !q.isProduct && exists i | 0 <= i < |stores| :: q.store == stores[i].name && q.url == stores[i].url
  {
    var f := PartnerYield(opts, storePage, browse, year);
    forall q | q in Collected(opts, stores, storePage, browse, year)
      ensures !q.isProduct && exists i | 0 <= i < |stores| :: q.store == stores[i].name && q.url == stores[i].url
    {
      FlatMapFrom(stores, f, q);
      var i :| 0 <= i < |stores| && q in f(stores[i]);
      YieldIsStorePromotions(opts, stores[i], storePage, browse, year);
      StorePromotionsShape(opts, stores[i], storePage(stores[i]), browse, year);
    }
  }

  // ------------------------------------------------------------ text report

  const Bullet: string := "\U{1F449} "
  const PromoHeading: string := "PROMOÇÕES DE PONTOS E CASHBACK:\n\n"
  const BonusHeading: string := "PROMOÇÕES BONIFICADAS:\n\n"
  const Disclaimer: string := "Consulte o regulamento, produtos elegíveis e demais condições de cada um dos parceiros."

  function Header(today: string): string
  {
    "PROMOÇÕES DO DIA ATUALIZADAS (" + today + "):\n\n"
  }

  /** The validity line, present only for a truthy validity. */
  function ValidLine(v: Option<string>, localeDate: string -> string): (line: string)
    ensures line == "" <==> !Truthy(v)
  {
    if Truthy(v) then "   Válido até: " + localeDate(v.value) + "\n" else ""
  }

  /** The link line, present only for a truthy direct URL. */
  function LinkLine(u: Option<string>): (line: string)
    ensures line == "" <==> !Truthy(u)
  {
    if Truthy(u) then "   Link: " + u.value + "\n" else ""
  }

  function PromoLine(p: Promotion): string
  {
    Bullet + p.store + ": " + p.value + " (" + p.program + ")\n"
  }

  function PromoEntry(p: Promotion, localeDate: string -> string): string
  {
    PromoLine(p) + ValidLine(p.validUntil, localeDate) + LinkLine(p.directUrl) + "\n"
  }

  function BonusEntry(b: BonusPromotion, localeDate: string -> string): string
  {
    Bullet + b.title + "\n" + ValidLine(b.validUntil, localeDate) + "\n"
  }

  function PromoEntryFor(localeDate: string -> string): Promotion -> string
  {
    (p: Promotion) => PromoEntry(p, localeDate)
  }

  function BonusEntryFor(localeDate: string -> string): BonusPromotion -> string
  {
    (b: BonusPromotion) => BonusEntry(b, localeDate)
  }

  /** The points-and-cashback section: absent exactly when there is no promotion. */
  function PromoSection(ps: seq<Promotion>, localeDate: string -> string): (section: string)
    ensures section == "" <==> ps == []
    ensures ps != [] ==> StartsWith(section, PromoHeading)
  {
    if |ps| > 0 then PromoHeading + FlatMap(ps, PromoEntryFor(localeDate)) else ""
  }

  /** The bonus section: absent exactly when there is no bonus promotion. */
  function BonusSection(bs: seq<BonusPromotion>, localeDate: string -> string): (section: string)
    ensures section == "" <==> bs == []
    ensures bs != [] ==> StartsWith(section, BonusHeading)
  {
    if |bs| > 0 then BonusHeading + FlatMap(bs, BonusEntryFor(localeDate)) else ""
  }

  /** What `formatResults(format)` returns. */
  function Report(format: string, results: Results, today: string, localeDate: string -> string): string
  {
    if format == "text" then
      Header(today) + PromoSection(results.promotions, localeDate)
      + BonusSection(results.bonusPromotions, localeDate) + Disclaimer
    else ""
  }

  /** The text report opens with the dated header. */
  lemma ReportStartsWithHeader(results: Results, today: string, localeDate: string -> string)
    ensures StartsWith(Report("text", results, today, localeDate), Header(today))
  {
    var h := Header(today);
    var p := PromoSection(results.promotions, localeDate);
    var b := BonusSection(results.bonusPromotions, localeDate);
    TakeConcat(h + p + b, Disclaimer, |h|);
    TakeConcat(h + p, b, |h|);
    ConcatSplit(h, p);
  }

  /** The text report closes with the disclaimer. */
  lemma ReportEndsWithDisclaimer(results: Results, today: string, localeDate: string -> string)
    ensures var r := Report("text", results, today, localeDate);
      |r| >= |Disclaimer| && r[|r| - |Disclaimer|..] == Disclaimer
  {
    var body := Header(today) + PromoSection(results.promotions, localeDate)
      + BonusSection(results.bonusPromotions, localeDate);
    ConcatSplit(body, Disclaimer);
  }

  /** Only the `'text'` format produces anything: the text report always holds the disclaimer. */
  lemma OnlyTextFormat(format: string, results: Results, today: string, localeDate: string -> string)
    ensures Report(format, results, today, localeDate) == "" <==> format != "text"
  {
    if format == "text" {
      ReportEndsWithDisclaimer(results, today, localeDate);
    }
  }

  /** With nothing to report, the header is followed directly by the disclaimer. */
  lemma EmptyReport(results: Results, today: string, localeDate: string -> string)
    requires results.promotions == [] && results.bonusPromotions == []
    ensures Report("text", results, today, localeDate) == Header(today) + Disclaimer
  {
    assert PromoSection(results.promotions, localeDate) == "";
    assert BonusSection(results.bonusPromotions, localeDate) == "";
  }

  /** Entries appear in the order of the promotions they describe. */
  lemma PromoEntriesConcat(a: seq<Promotion>, b: seq<Promotion>, localeDate: string -> string)
    ensures FlatMap(a + b, PromoEntryFor(localeDate))
         == FlatMap(a, PromoEntryFor(localeDate)) + FlatMap(b, PromoEntryFor(localeDate))
  {
    FlatMapConcat(a, b, PromoEntryFor(localeDate));
  }

  /**
   * The link line belongs to a truthy `directUrl` only: an empty one reads
   * exactly as an absent one, and a non-empty one is printed after `Link:`.
   */
  lemma LinkOnlyWhenTruthy(p: Promotion, localeDate: string -> string)
    ensures !Truthy(p.directUrl) ==> PromoEntry(p, localeDate) == PromoEntry(p.(directUrl := None), localeDate)
    ensures Truthy(p.directUrl) ==>
      PromoEntry(p, localeDate)
      == PromoLine(p) + ValidLine(p.validUntil, localeDate) + "   Link: " + p.directUrl.value + "\n" + "\n"
  {
  }

  // ------------------------------------------------------------- the class

  /** `ComparemaniaScraper`: resolved options and the results it accumulates. */
  class ComparemaniaScraper {
    const options: Options
    var results: Results

    /** `new ComparemaniaScraper(options)`, with the clock's ISO timestamp given. */
    constructor (given: GivenOptions, timestamp: string)
      ensures options == Resolve(given)
      ensures results == Results([], [], timestamp)
    {
      options := Resolve(given);
      results := Results([], [], timestamp);
    }

    /** `getPartners()` on the outcome of fetching the home page. */
    method GetPartners(home: Fetch<seq<Link>>) returns (partners: seq<Partner>)
      ensures partners == PartnersOf(home)
    {
      if home.FetchFailed? {
        return [];
      }
      var links := home.document;
      ghost var cs := Candidates(links);
      partners := [];
      var i := 0;
      while i < |links|
        invariant 0 <= i <= |links|
        invariant partners == Discover(cs[..i])
      {
        var c := Candidate(links[i]);
        assert c == cs[i];
        if c.Some? && c.value.name != "" && !HasName(partners, c.value.name) {
          partners := partners + [c.value];
        }
        assert cs[..i + 1][..i] == cs[..i];
        i := i + 1;
      }
      assert cs[..i] == cs;
    }

    /** `getDirectLinkAndValidity(promotion)` for the given landing; `None` when the error escapes. */
    method GetDirectLinkAndValidity(promotion: Promotion, landing: Landing, year: nat) returns (r: Option<Promotion>)
      ensures r == Resolved(promotion, landing, year)
    {
      match landing
      case BrowserFailed =>
        return None;
      case NoLanding =>
        return Some(promotion);
      case Landed(u, content) =>
        var p := promotion.(directUrl := Some(u));
        if content.Some? {
          var v := ExtractValidityDate(content.value, year);
          p := p.(validUntil := v);
        }
        return Some(p);
    }

    /** The `.each` scan of one block type: a record per filled block, in block order. */
    method ScanBlocks(partner: Partner, blocks: seq<Block>, kind: PromotionType) returns (found: seq<Promotion>)
      ensures found == Records(partner, blocks, kind)
    {
      found := [];
      var i := 0;
      while i < |blocks|
        invariant 0 <= i <= |blocks|
        invariant found == Records(partner, blocks[..i], kind)
      {
        FlatMapSnoc(blocks, i, RecordsFor(partner, kind));
        found := found + RecordOf(partner, blocks[i], kind);
        i := i + 1;
      }
      assert blocks[..i] == blocks;
    }

    /** The `for ... of` loop over the promotions found; `None` once an error escapes. */
    method ResolveEach(found: seq<Promotion>, browse: Promotion -> Landing, year: nat)
      returns (resolved: Option<seq<Promotion>>)
      ensures resolved == ResolveAll(found, browse, year)
    {
      var done: seq<Promotion> := [];
      var k := 0;
      while k < |found|
        invariant 0 <= k <= |found|
        invariant ResolveAll(found[..k], browse, year) == Some(done)
      {
        var r := GetDirectLinkAndValidity(found[k], browse(found[k]), year);
        if r.None? {
          ResolveAllFails(found, browse, year);
          return None;
        }
        assert found[..k + 1][..k] == found[..k];
        done := done + [r.value];
        k := k + 1;
      }
      assert found[..k] == found;
      return Some(done);
    }

    /** `getStorePromotions(partner)` on the outcome of fetching the partner's page. */
    method GetStorePromotions(partner: Partner, page: Fetch<StorePage>, browse: Promotion -> Landing, year: nat)
      returns (promotions: seq<Promotion>)
      ensures promotions == StorePromotions(options, partner, page, browse, year)
    {
      if page.FetchFailed? {
        return [];
      }
      var doc := page.document;
      var points: seq<Promotion> := [];
      if options.includePointsPrograms {
        points := ScanBlocks(partner, doc.pointsBlocks, Points);
      }
      var cashback: seq<Promotion> := [];
      if options.includeCashbackPrograms {
        cashback := ScanBlocks(partner, doc.cashbackBlocks, Cashback);
      }
      var resolved := ResolveEach(points + cashback, browse, year);
      promotions := if resolved.Some? then resolved.value else [];
    }

    /** `getBonusPromotions()` on the outcome of fetching the bonus page. */
    method GetBonusPromotions(page: Fetch<seq<BonusBlock>>, year: nat) returns (bonus: seq<BonusPromotion>)
      ensures bonus == BonusPromotionsOf(page, year)
    {
      if page.FetchFailed? {
        return [];
      }
      var blocks := page.document;
      bonus := [];
      var i := 0;
      while i < |blocks|
        invariant 0 <= i <= |blocks|
        invariant bonus == BonusFrom(blocks[..i], year)
      {
        FlatMapSnoc(blocks, i, BonusFor(year));
        var title := Trim(blocks[i].title);
        if title != "" {
          var t := ParsePromotionTitle(title);
          var validUntil := ParseValidityDate(Trim(blocks[i].validity), year);
          bonus := bonus + [BonusPromotion(t.title, t.fromProgram, t.toProgram, t.bonusValue, validUntil)];
        }
        i := i + 1;
      }
      assert blocks[..i] == blocks;
    }

    /** The partner loop of `collectPromotions()`: appends what each partner yields, in order. */
    method ProcessStores(stores: seq<Partner>, storePage: Partner -> Fetch<StorePage>,
                         browse: Promotion -> Landing, year: nat)
      modifies this
      ensures results.promotions == old(results.promotions) + Collected(options, stores, storePage, browse, year)
      ensures results.bonusPromotions == old(results.bonusPromotions)
      ensures results.timestamp == old(results.timestamp)
    {
      var i := 0;
      while i < |stores|
        invariant 0 <= i <= |stores|
        invariant results.promotions == old(results.promotions) + Collected(options, stores[..i], storePage, browse, year)
        invariant results.bonusPromotions == old(results.bonusPromotions)
        invariant results.timestamp == old(results.timestamp)
      {
        var partner := stores[i];
        var promotions := GetStorePromotions(partner, storePage(partner), browse, year);
        var filtered := NonProduct(promotions);
        StoreHasNoProducts(options, partner, storePage(partner), browse, year);
        CollectedPrefixStep(options, stores, i, storePage, browse, year);
        ConcatAssoc(old(results.promotions), Collected(options, stores[..i], storePage, browse, year), filtered);
        if |filtered| > 0 {
          results := results.(promotions := results.promotions + filtered);
        } else {
          assert results.promotions + filtered == results.promotions;
        }
        i := i + 1;
      }
      assert stores[..i] == stores;
    }

    /**
     * `collectPromotions()`: visits the first partners, appends what each
     * yields to `results.promotions`, and replaces the bonus promotions
     * when they are enabled.
     */
    method CollectPromotions(home: Fetch<seq<Link>>, storePage: Partner -> Fetch<StorePage>,
                             browse: Promotion -> Landing, bonusPage: Fetch<seq<BonusBlock>>, year: nat)
      returns (r: Results)
      modifies this
      ensures results.promotions == old(results.promotions)
        + Collected(options, StoresToProcess(PartnersOf(home), options.maxStores), storePage, browse, year)
      ensures results.bonusPromotions
        == if options.includeBonusPromotions then BonusPromotionsOf(bonusPage, year) else old(results.bonusPromotions)
      ensures results.timestamp == old(results.timestamp)
      ensures r == results
    {
      var partners := GetPartners(home);
      var stores := StoresToProcess(partners, options.maxStores);
      ProcessStores(stores, storePage, browse, year);
      if options.includeBonusPromotions {
        var bonus := GetBonusPromotions(bonusPage, year);
        results := results.(bonusPromotions := bonus);
      }
      r := results;
    }

    /** The loop over `results.promotions`: one entry per promotion, in order. */
    method RenderPromotions(ps: seq<Promotion>, localeDate: string -> string) returns (text: string)
      ensures text == FlatMap(ps, PromoEntryFor(localeDate))
    {
      text := "";
      var i := 0;
      while i < |ps|
        invariant 0 <= i <= |ps|
        invariant text == FlatMap(ps[..i], PromoEntryFor(localeDate))
      {
        FlatMapSnoc(ps, i, PromoEntryFor(localeDate));
        var entry := PromoLine(ps[i]);
        entry := entry + ValidLine(ps[i].validUntil, localeDate);
        entry := entry + LinkLine(ps[i].directUrl);
        entry := entry + "\n";
        text := text + entry;
        i := i + 1;
      }
      assert ps[..i] == ps;
    }

    /** The loop over `results.bonusPromotions`: one entry per bonus promotion, in order. */
    method RenderBonusPromotions(bs: seq<BonusPromotion>, localeDate: string -> string) returns (text: string)
      ensures text == FlatMap(bs, BonusEntryFor(localeDate))
    {
      text := "";
      var i := 0;
      while i < |bs|
        invariant 0 <= i <= |bs|
        invariant text == FlatMap(bs[..i], BonusEntryFor(localeDate))
      {
        FlatMapSnoc(bs, i, BonusEntryFor(localeDate));
        var entry := Bullet + bs[i].title + "\n";
        entry := entry + ValidLine(bs[i].validUntil, localeDate);
        entry := entry + "\n";
        text := text + entry;
        i := i + 1;
      }
      assert bs[..i] == bs;
    }

    /** `formatResults(format)`, with today's date and the date formatter given. */
    method FormatResults(format: string, today: string, localeDate: string -> string) returns (output: string)
      ensures output == Report(format, results, today, localeDate)
    {
      if format != "text" {
        return "";
      }
      var promoSection := "";
      if |results.promotions| > 0 {
        var entries := RenderPromotions(results.promotions, localeDate);
        promoSection := PromoHeading + entries;
      }
      var bonusSection := "";
      if |results.bonusPromotions| > 0 {
        var entries := RenderBonusPromotions(results.bonusPromotions, localeDate);
        bonusSection := BonusHeading + entries;
      }
      output := Header(today) + promoSection + bonusSection + Disclaimer;
    }
  }
}
