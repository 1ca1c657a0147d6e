/**
 * `parsePromotionTitle`: three independent regular-expression extractions
 * from the title of a bonus-transfer promotion,
 *   fromProgram  /promoção: ([^e]+) e/i
 *   toProgram    /e ([^e]+) e ganhe/i
 *   bonusValue   /ganhe até (\d+)% de bônus/i
 * each taken from the leftmost match and null when its pattern does not
 * match. Under `/i` the class `[^e]` excludes both `e` and `E`.
 */
module TitleParser {
  import opened Wrappers
  import opened Strings

  datatype ParsedTitle = ParsedTitle(
    title: string,
    fromProgram: Option<string>,
    toProgram: Option<string>,
    bonusValue: Option<string>)

  /** The characters `[^e]` refuses under `/i`. */
  predicate IsE(c: char)
  {
    SameIgnoringCase(c, 'e')
  }

  predicate NoE(s: string)
  {
    forall k :: 0 <= k < |s| ==> s[k] != 'e' && s[k] != 'E'
  }

  /** The first `e` or `E` at or after `p`. */
  function NextE(s: string, p: nat): (r: Option<nat>)
    ensures r.Some? ==> p <= r.value < |s| && IsE(s[r.value])
    ensures r.Some? ==> forall j :: p <= j < r.value ==> !IsE(s[j])
    ensures r.None? ==> forall j :: p <= j < |s| ==> !IsE(s[j])
  {
    var q := (j: nat) => j < |s| && IsE(s[j]);
    assert forall j: nat :: q(j) == (j < |s| && IsE(s[j]));
    FirstIndex(|s|, p, q)
  }

  /**
   * `([^e]+)` at `p` followed by `tail`, a text that starts with " e". The
   * run cannot hold an e, and `tail` needs one right after a space, so the
   * only way to match is a run ending just before the space that precedes
   * the first e after `p`; backtracking finds nothing else.
   */
  predicate GroupAt(s: string, p: nat, tail: string)
  {
    match NextE(s, p)
    case Some(q) => q >= p + 2 && LitAtI(s, q - 1, tail)
    case None => false
  }

  /** Where the `([^e]+)` run of `GroupAt(s, p, tail)` ends. */
  function GroupEnd(s: string, p: nat, tail: string): (k: nat)
    requires GroupAt(s, p, tail)
    ensures p < k < |s|
    ensures forall j :: p <= j < k ==> !IsE(s[j])
  {
    NextE(s, p).value - 1
  }

  const FromLead: string := "promoção: "
  const FromTail: string := " e"
  const ToLead: string := "e "
  const ToTail: string := " e ganhe"
  const BonusLead: string := "ganhe até "
  const BonusTail: string := "% de bônus"

  /** `/promoção: ([^e]+) e/i` matches at `i`. */
  predicate FromAt(s: string, i: nat)
  {
    LitAtI(s, i, FromLead) && GroupAt(s, i + |FromLead|, FromTail)
  }

  /** `/e ([^e]+) e ganhe/i` matches at `i`. */
  predicate ToAt(s: string, i: nat)
  {
    LitAtI(s, i, ToLead) && GroupAt(s, i + |ToLead|, ToTail)
  }

  /** The end of the run of digits starting at `p` (the greedy `\d+`). */
  function DigitsEnd(s: string, p: nat): (k: nat)
    requires p <= |s|
    ensures p <= k <= |s|
    ensures forall j :: p <= j < k ==> IsDigit(s[j])
    ensures k < |s| ==> !IsDigit(s[k])
  {
    var q := (j: nat) => j == |s| || (j < |s| && !IsDigit(s[j]));
    assert forall j: nat :: q(j) == (j == |s| || (j < |s| && !IsDigit(s[j])));
    assert q(|s|);
    FirstIndex(|s|, p, q).value
  }

  /** `/ganhe até (\d+)% de bônus/i` matches at `i`. */
  predicate BonusAt(s: string, i: nat)
  {
    && LitAtI(s, i, BonusLead)
    && var p := i + |BonusLead|;
    && DigitsEnd(s, p) > p && LitAtI(s, DigitsEnd(s, p), BonusTail)
  }

  /** `fromProgram[1]` of a match at `i`. */
  function FromCapture(s: string, i: nat): (c: string)
    requires FromAt(s, i)
    ensures NoE(c)
  {
    var p := i + |FromLead|;
    s[p..GroupEnd(s, p, FromTail)]
  }

  /** `toProgram[1]` of a match at `i`. */
  function ToCapture(s: string, i: nat): (c: string)
    requires ToAt(s, i)
    ensures NoE(c)
  {
    var p := i + |ToLead|;
    s[p..GroupEnd(s, p, ToTail)]
  }

  /** `bonusValue[1]` of a match at `i`. */
  function BonusCapture(s: string, i: nat): (c: string)
    requires BonusAt(s, i)
    ensures |c| >= 1 && AllDigits(c)
  {
    var p := i + |BonusLead|;
    s[p..DigitsEnd(s, p)]
  }

  function FromIndex(s: string): (r: Option<nat>)
    ensures r.Some? ==> FromAt(s, r.value) && forall j :: 0 <= j < r.value ==> !FromAt(s, j)
    ensures r.None? ==> forall j: nat :: !FromAt(s, j)
  {
    var q := (j: nat) => FromAt(s, j);
    assert forall j: nat :: q(j) == FromAt(s, j);
    FirstIndex(|s|, 0, q)
  }

  function ToIndex(s: string): (r: Option<nat>)
    ensures r.Some? ==> ToAt(s, r.value) && forall j :: 0 <= j < r.value ==> !ToAt(s, j)
    ensures r.None? ==> forall j: nat :: !ToAt(s, j)
  {
    var q := (j: nat) => ToAt(s, j);
    assert forall j: nat :: q(j) == ToAt(s, j);
    FirstIndex(|s|, 0, q)
  }

  function BonusIndex(s: string): (r: Option<nat>)
    ensures r.Some? ==> BonusAt(s, r.value) && forall j :: 0 <= j < r.value ==> !BonusAt(s, j)
    ensures r.None? ==> forall j: nat :: !BonusAt(s, j)
  {
    var q := (j: nat) => BonusAt(s, j);
    assert forall j: nat :: q(j) == BonusAt(s, j);
    FirstIndex(|s|, 0, q)
  }

  /** A trimmed capture still holds no e: trimming only drops characters. */
  lemma TrimNoE(c: string)
    requires NoE(c)
    ensures NoE(Trim(c))
  {
    forall k | 0 <= k < |Trim(c)| ensures Trim(c)[k] != 'e' && Trim(c)[k] != 'E' {
      TrimChars(c, k);
    }
  }

  /**
   * `parsePromotionTitle(title)`. The title is echoed; each field is null
   * exactly when its pattern matches nowhere; the program names are trimmed
   * and hold no e in either case; the bonus is digits followed by `%`.
   */
  function ParsePromotionTitle(title: string): (r: ParsedTitle)
    ensures r.title == title
    ensures r.fromProgram.None? <==> forall i: nat :: !FromAt(title, i)
    ensures r.toProgram.None? <==> forall i: nat :: !ToAt(title, i)
    ensures r.bonusValue.None? <==> forall i: nat :: !BonusAt(title, i)
    ensures r.fromProgram.Some? ==> NoE(r.fromProgram.value) && IsTrimmed(r.fromProgram.value)
    ensures r.toProgram.Some? ==> NoE(r.toProgram.value) && IsTrimmed(r.toProgram.value)
    ensures r.bonusValue.Some? ==>
      var v := r.bonusValue.value;
      |v| >= 2 && v[|v| - 1] == '%' && AllDigits(v[..|v| - 1])
  {
    var fromProgram :=
      (match FromIndex(title)
       case Some(i) => TrimNoE(FromCapture(title, i)); Some(Trim(FromCapture(title, i)))
       case None => None);
    var toProgram :=
      (match ToIndex(title)
       case Some(i) => TrimNoE(ToCapture(title, i)); Some(Trim(ToCapture(title, i)))
       case None => None);
    var bonusValue :=
      (match BonusIndex(title)
       case Some(i) =>
         var v := BonusCapture(title, i) + "%";
         assert v[..|v| - 1] == BonusCapture(title, i);
         Some(v)
       case None => None);
    ParsedTitle(title, fromProgram, toProgram, bonusValue)
  }

  /** The leftmost match of the source pattern gives `fromProgram`. */
  lemma FromProgramLeftmost(title: string, i: nat)
    requires FromAt(title, i) && forall j :: 0 <= j < i ==> !FromAt(title, j)
    ensures ParsePromotionTitle(title).fromProgram == Some(Trim(FromCapture(title, i)))
  {
    assert FromIndex(title) == Some(i);
  }

  /** The leftmost match of the destination pattern gives `toProgram`. */
  lemma ToProgramLeftmost(title: string, i: nat)
    requires ToAt(title, i) && forall j :: 0 <= j < i ==> !ToAt(title, j)
    ensures ParsePromotionTitle(title).toProgram == Some(Trim(ToCapture(title, i)))
  {
    assert ToIndex(title) == Some(i);
  }

  /** The leftmost match of the bonus pattern gives `bonusValue`, its digits and `%`. */
  lemma BonusValueLeftmost(title: string, i: nat)
    requires BonusAt(title, i) && forall j :: 0 <= j < i ==> !BonusAt(title, j)
    ensures ParsePromotionTitle(title).bonusValue == Some(BonusCapture(title, i) + "%")
  {
    assert BonusIndex(title) == Some(i);
  }

  /** The example title of the source comment, spelling included. */
  const ExampleTitle: string :=
    "Trasfira seus " + "pontos na " + "promoção: " + "Itaú e " + "LATAM Pass " + "e ganhe até " + "40% de bônus"

  lemma ExampleNoFromEarly()
    ensures forall j :: 0 <= j < 14 ==> !FromAt(ExampleTitle, j)
  {
    var s := ExampleTitle;
    forall j | 0 <= j < 14 ensures !LitAtI(s, j, FromLead) {
      NotLitAtI(s, j, FromLead, 0);
    }
  }

  lemma ExampleNoFromLate()
    ensures forall j :: 14 <= j < 24 ==> !FromAt(ExampleTitle, j)
  {
    var s := ExampleTitle;
    forall j | 14 <= j < 24 ensures !LitAtI(s, j, FromLead) {
      if j == 14 { NotLitAtI(s, j, FromLead, 1); } else { NotLitAtI(s, j, FromLead, 0); }
    }
  }

  lemma ExampleNoFromBefore()
    ensures forall j :: 0 <= j < 24 ==> !FromAt(ExampleTitle, j)
  {
    ExampleNoFromEarly();
    ExampleNoFromLate();
  }

  lemma ExampleFromAt()
    ensures FromAt(ExampleTitle, 24)
    ensures GroupEnd(ExampleTitle, 34, FromTail) == 38
  {
    var s := ExampleTitle;
    assert LitAtI(s, 24, FromLead);
    assert NextE(s, 34) == Some(39) by {
      assert forall j :: 34 <= j < 39 ==> !IsE(s[j]);
      assert IsE(s[39]);
    }
    assert LitAtI(s, 38, FromTail);
  }

  lemma ExampleFrom()
    ensures FromIndex(ExampleTitle) == Some(24)
    ensures FromCapture(ExampleTitle, 24) == "Itaú"
  {
    ExampleNoFromBefore();
    ExampleFromAt();
    assert ExampleTitle[34..38] == "Itaú";
  }

  lemma ExampleNoToEarly()
    ensures forall j :: 0 <= j < 19 ==> !ToAt(ExampleTitle, j)
  {
    var s := ExampleTitle;
    forall j | 0 <= j < 19 ensures !LitAtI(s, j, ToLead) {
      if j == 10 { NotLitAtI(s, j, ToLead, 1); } else { NotLitAtI(s, j, ToLead, 0); }
    }
  }

  lemma ExampleNoToLate()
    ensures forall j :: 19 <= j < 39 ==> !ToAt(ExampleTitle, j)
  {
    var s := ExampleTitle;
    forall j | 19 <= j < 39 ensures !LitAtI(s, j, ToLead) {
      NotLitAtI(s, j, ToLead, 0);
    }
  }

  lemma ExampleNoToBefore()
    ensures forall j :: 0 <= j < 39 ==> !ToAt(ExampleTitle, j)
  {
    ExampleNoToEarly();
    ExampleNoToLate();
  }

  lemma ExampleToGroup()
    ensures NextE(ExampleTitle, 41) == Some(52)
  {
    var s := ExampleTitle;
    assert forall j :: 41 <= j < 52 ==> !IsE(s[j]);
    assert IsE(s[52]);
  }

  lemma ExampleToLead()
    ensures LitAtI(ExampleTitle, 39, ToLead)
  {
  }

  lemma ExampleToTail()
    ensures LitAtI(ExampleTitle, 51, ToTail)
  {
  }

  lemma ExampleToAt()
    ensures ToAt(ExampleTitle, 39)
    ensures GroupEnd(ExampleTitle, 41, ToTail) == 51
  {
    ExampleToLead();
    ExampleToGroup();
    ExampleToTail();
  }

  lemma ExampleTo()
    ensures ToIndex(ExampleTitle) == Some(39)
    ensures ToCapture(ExampleTitle, 39) == "LATAM Pass"
  {
    ExampleNoToBefore();
    ExampleToAt();
    assert ExampleTitle[41..51] == "LATAM Pass";
  }

  lemma ExampleNoBonusEarly()
    ensures forall j :: 0 <= j < 27 ==> !BonusAt(ExampleTitle, j)
  {
    var s := ExampleTitle;
    forall j | 0 <= j < 27 ensures !LitAtI(s, j, BonusLead) {
      NotLitAtI(s, j, BonusLead, 0);
    }
  }

  lemma ExampleNoBonusLate()
    ensures forall j :: 27 <= j < 54 ==> !BonusAt(ExampleTitle, j)
  {
    var s := ExampleTitle;
    forall j | 27 <= j < 54 ensures !LitAtI(s, j, BonusLead) {
      NotLitAtI(s, j, BonusLead, 0);
    }
  }

  lemma ExampleNoBonusBefore()
    ensures forall j :: 0 <= j < 54 ==> !BonusAt(ExampleTitle, j)
  {
    ExampleNoBonusEarly();
    ExampleNoBonusLate();
  }

  lemma ExampleDigits()
    ensures DigitsEnd(ExampleTitle, 64) == 66
  {
    var s := ExampleTitle;
    assert IsDigit(s[64]) && IsDigit(s[65]) && !IsDigit(s[66]);
  }

  lemma ExampleBonusLead()
    ensures LitAtI(ExampleTitle, 54, BonusLead)
  {
  }

  lemma ExampleBonusTail()
    ensures LitAtI(ExampleTitle, 66, BonusTail)
  {
  }

  lemma ExampleBonusAt()
    ensures BonusAt(ExampleTitle, 54)
    ensures DigitsEnd(ExampleTitle, 64) == 66
  {
    ExampleDigits();
    ExampleBonusLead();
    ExampleBonusTail();
  }

  lemma ExampleBonus()
    ensures BonusIndex(ExampleTitle) == Some(54)
    ensures BonusCapture(ExampleTitle, 54) == "40"
  {
    ExampleNoBonusBefore();
    ExampleBonusAt();
    assert ExampleTitle[64..66] == "40";
  }

  lemma ExampleNamesTrimmed()
    ensures Trim("Itaú") == "Itaú" && Trim("LATAM Pass") == "LATAM Pass"
  {
    TrimTrimmed("Itaú");
    TrimTrimmed("LATAM Pass");
  }

  lemma ExampleFromProgram()
    ensures ParsePromotionTitle(ExampleTitle).fromProgram == Some("Itaú")
  {
    ExampleFrom();
    FromProgramLeftmost(ExampleTitle, 24);
    ExampleNamesTrimmed();
  }

  lemma ExampleToProgram()
    ensures ParsePromotionTitle(ExampleTitle).toProgram == Some("LATAM Pass")
  {
    ExampleTo();
    ToProgramLeftmost(ExampleTitle, 39);
    ExampleNamesTrimmed();
  }

  lemma ExampleBonusValue()
    ensures ParsePromotionTitle(ExampleTitle).bonusValue == Some("40%")
  {
    ExampleBonus();
    BonusValueLeftmost(ExampleTitle, 54);
    var c := BonusCapture(ExampleTitle, 54);
    assert c + "%" == "40%" by { assert c == "40"; }
  }

  /** The example title yields Itaú, LATAM Pass and 40%. */
  lemma ExampleTitleParsed()
    ensures ParsePromotionTitle(ExampleTitle)
         == ParsedTitle(ExampleTitle, Some("Itaú"), Some("LATAM Pass"), Some("40%"))
  {
    ExampleFromProgram();
    ExampleToProgram();
    ExampleBonusValue();
  }

  /** A title in which none of the three phrases occurs. */
  const Patternless: string := "promoção " + "qualquer" + " sem padrão"

  lemma PatternlessNoFrom()
    ensures forall j: nat :: !FromAt(Patternless, j)
  {
    var s := Patternless;
    forall j: nat ensures !FromAt(s, j) {
      if j == 0 { NotLitAtI(s, j, FromLead, 8); }
      else if j == 22 { NotLitAtI(s, j, FromLead, 1); }
      else if j < |s| { NotLitAtI(s, j, FromLead, 0); }
    }
  }

  lemma PatternlessNoTo()
    ensures forall j: nat :: !ToAt(Patternless, j)
  {
    var s := Patternless;
    forall j: nat ensures !ToAt(s, j) {
      if j == 15 || j == 19 { NotLitAtI(s, j, ToLead, 1); }
      else if j < |s| { NotLitAtI(s, j, ToLead, 0); }
    }
  }

  lemma PatternlessNoBonus()
    ensures forall j: nat :: !BonusAt(Patternless, j)
  {
    var s := Patternless;
    forall j: nat ensures !BonusAt(s, j) {
      if j < |s| { NotLitAtI(s, j, BonusLead, 0); }
    }
  }

  /** A title without any of the three phrases parses to three nulls. */
  lemma PatternlessTitle()
    ensures ParsePromotionTitle(Patternless) == ParsedTitle(Patternless, None, None, None)
  {
    PatternlessNoFrom();
    PatternlessNoTo();
    PatternlessNoBonus();
  }
}
