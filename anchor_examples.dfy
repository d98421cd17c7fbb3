/**
 * Two anchor lines worked through `AnchorDraft`: a card purchase whose
 * running balance trails the amount, and a deposit with a grouped amount.
 * Each step of the parse (date, remaining text, last amount, description)
 * is its own lemma.
 */
module AnchorExamples {
  import opened Wrappers
  import opened Text
  import opened FinancialRules
  import opened StatementPatterns
  import opened RegexExtractor

  // The literals are built from short pieces, which keeps indexing into them cheap.
  const CardPurchaseText := "CHECK CARD PURCHASE" + " STORE #4521"
  const CardPurchaseRest := CardPurchaseText + (" 54.23" + " 1200.11")
  const CardPurchaseLine := "03/14/2026" + (" " + CardPurchaseRest)

  lemma CardPurchaseDate()
    ensures DateMatch(CardPurchaseLine) == Some(10)
  {
    var s := CardPurchaseLine;
    assert ShortFieldThenSep(s, 0) == Some(2);
    assert ShortFieldThenSep(s, 3) == Some(5);
    assert DigitsAt(s, 6, 4);
  }

  lemma CardPurchaseRemaining()
    ensures Strip(CardPurchaseLine[10..]) == CardPurchaseRest
  {
    var r := CardPurchaseRest;
    assert |"03/14/2026"| == 10;
    assert CardPurchaseLine[10..] == " " + r;
    assert " " + r == " " + r + "";
    StripPadded(" ", r, "");
    assert IsStripped(r);
    StripOfStripped(r);
  }

  /** Positions 0 to 26 hold no digit, so no amount starts there. */
  lemma CardPurchaseWords()
    ensures NoMatchIn(CardPurchaseRest, 0, 27)
  {
    var r := CardPurchaseRest;
    var p := "CHECK CARD PURCHASE";
    assert forall c :: c in p ==> !IsDigit(c);
    forall q | 0 <= q < 27 ensures !IsDigit(r[q]) {
      if q < 19 { assert r[q] == p[q]; } else { assert r[q] == " STORE #4521"[q - 19]; }
    }
    NoDigitNoMatch(r, 0, 27);
  }

  /** `4521` is four digits after `#`: too long to start an amount, and no boundary inside it. */
  lemma CardPurchaseStoreNumber()
    ensures NoMatchIn(CardPurchaseRest, 27, 32)
  {
    var r := CardPurchaseRest;
    assert !IsDigit(r[31]);
    assert DigitRunEnd(r, 31) == 31;
    assert DigitRunEnd(r, 30) == 31;
    assert DigitRunEnd(r, 29) == 31;
    assert DigitRunEnd(r, 28) == 31;
    assert DigitRunEnd(r, 27) == 31;
    assert AmountAt(r, 27) == None;
    assert !BoundaryAt(r, 28) && !BoundaryAt(r, 29) && !BoundaryAt(r, 30);
    forall q | 27 <= q < 32 ensures AmountAt(r, q).None? {
      if q == 27 {} else if q == 28 {} else if q == 29 {} else if q == 30 {} else {}
    }
  }

  lemma CardPurchaseHead()
    ensures NoMatchIn(CardPurchaseRest, 0, 32)
  {
    CardPurchaseWords();
    CardPurchaseStoreNumber();
  }

  lemma CardPurchaseMatch()
    ensures AmountAt(CardPurchaseRest, 32) == Some(37)
  {
    var r := CardPurchaseRest;
    assert DigitRunEnd(r, 34) == 34;
    assert DigitRunEnd(r, 33) == 34;
    assert DigitRunEnd(r, 32) == 34;
    assert GroupsEnd(r, 34) == 34;
  }

  /** The balance `1200.11` holds no match: four leading digits, and `11` has no point after it. */
  lemma CardPurchaseTail()
    ensures NoMatchIn(CardPurchaseRest, 37, 45)
  {
    var r := CardPurchaseRest;
    assert !IsDigit(r[42]);
    assert DigitRunEnd(r, 42) == 42;
    assert DigitRunEnd(r, 41) == 42;
    assert DigitRunEnd(r, 40) == 42;
    assert DigitRunEnd(r, 39) == 42;
    assert DigitRunEnd(r, 38) == 42;
    assert AmountAt(r, 38) == None;
    assert !BoundaryAt(r, 39) && !BoundaryAt(r, 40) && !BoundaryAt(r, 41) && !IsDigit(r[42]) && !BoundaryAt(r, 44);
    assert DigitRunEnd(r, 43) == 45;
    assert AmountAt(r, 43) == None;
  }

  /** The scan of the remaining text finds `54.23` and nothing else. */
  lemma CardPurchaseAmounts()
    ensures AmountMatches(CardPurchaseRest, 0) == [(32, 37)]
  {
    CardPurchaseHead();
    CardPurchaseMatch();
    CardPurchaseTail();
    assert IsLeftmostScan(CardPurchaseRest, 0, [(32, 37)]);
    ScanUnique(CardPurchaseRest, 0, [(32, 37)]);
  }

  lemma CardPurchaseParsed()
    ensures ParseAmount("54.23") == Success(5423)
  {
    assert IsGroupedInt("54");
    ParsePointAmount("54", "23");
    assert RemoveCommas("54") == "54";
    assert DigitsValue("5") == 5 && DigitsValue("2") == 2;
    assert DigitsValue("54") == 54 && DigitsValue("23") == 23;
    assert "54" + ['.'] + "23" == "54.23";
  }

  lemma CardPurchaseLast()
    ensures LastAmount(CardPurchaseRest) == Some((32, 37)) && CardPurchaseRest != []
  {
    CardPurchaseAmounts();
  }

  lemma CardPurchaseCents()
    ensures ParseAmount(CardPurchaseRest[32..37]) == Success(5423)
  {
    assert CardPurchaseRest[32..37] == "54.23";
    CardPurchaseParsed();
  }

  lemma CardPurchaseDescription()
    ensures Strip(CardPurchaseRest[..32]) == CardPurchaseText
  {
    var d := CardPurchaseText;
    assert CardPurchaseRest[..32] == "" + d + " ";
    StripPadded("", d, " ");
    StripOfStripped(d);
  }

  lemma CardPurchaseKept()
    ensures !ContainsAny(Lower(CardPurchaseText), SkipKeywords) && |CardPurchaseText| == 31
  {
    NoLetterLIsNeverSkipped(CardPurchaseText);
  }

  /** In a withdrawals section the card purchase is -54.23, described without the amount or the balance. */
  lemma CardPurchaseAnchor(category: Option<string>)
    ensures AnchorDraft(CardPurchaseLine, Debit, category)
            == Some(Draft("03/14/2026", CardPurchaseText, -5423, Debit, category))
  {
    CardPurchaseDate();
    CardPurchaseRemaining();
    CardPurchaseLast();
    CardPurchaseCents();
    CardPurchaseDescription();
    CardPurchaseKept();
    AnchorDraftOf(CardPurchaseLine, Debit, category, 10, CardPurchaseRest, 32, 37, 5423, CardPurchaseText);
    assert CardPurchaseLine[..10] == "03/14/2026";
  }

  const DepositText := "DIRECT DEPOSIT"
  const DepositRest := DepositText + (" " + "6,000.00")
  const DepositLine := "01/15/2024" + (" " + DepositRest)

  lemma DepositDate()
    ensures DateMatch(DepositLine) == Some(10)
  {
    var s := DepositLine;
    assert ShortFieldThenSep(s, 0) == Some(2);
    assert ShortFieldThenSep(s, 3) == Some(5);
    assert DigitsAt(s, 6, 4);
  }

  lemma DepositRemaining()
    ensures Strip(DepositLine[10..]) == DepositRest
  {
    var r := DepositRest;
    assert |"01/15/2024"| == 10;
    assert DepositLine[10..] == " " + r;
    assert " " + r == " " + r + "";
    StripPadded(" ", r, "");
    assert r[0] == 'D' && r[|r| - 1] == '0';
    assert IsStripped(r);
    StripOfStripped(r);
  }

  /** `DIRECT DEPOSIT ` holds no digit, so no amount starts in it. */
  lemma DepositWords()
    ensures |DepositRest| == 23 && NoMatchIn(DepositRest, 0, 15)
  {
    var r := DepositRest;
    assert forall c :: c in DepositText ==> !IsDigit(c);
    forall q | 0 <= q < 15 ensures !IsDigit(r[q]) {
      if q < 14 { assert r[q] == DepositText[q]; }
    }
    NoDigitNoMatch(r, 0, 15);
  }

  /** `6,000.00` is read as one grouped amount. */
  lemma DepositMatch()
    ensures |DepositRest| == 23 && AmountAt(DepositRest, 15) == Some(23)
  {
    var r := DepositRest;
    assert DigitRunEnd(r, 16) == 16;
    assert DigitRunEnd(r, 15) == 16;
    assert DigitsAt(r, 17, 3);
    assert GroupsEnd(r, 20) == 20;
    assert GroupsEnd(r, 16) == 20;
  }

  lemma DepositAmounts()
    ensures |DepositRest| == 23 && AmountMatches(DepositRest, 0) == [(15, 23)]
  {
    DepositWords();
    DepositMatch();
    var r := DepositRest;
    assert NoMatchIn(r, 23, |r|);
    assert IsLeftmostScan(r, 0, [(15, 23)]);
    ScanUnique(r, 0, [(15, 23)]);
  }

  /** The whole grouped figure `6,000.00` is the one match; `000.00` inside it has no boundary before it. */
  lemma DepositLast()
    ensures LastAmount(DepositRest) == Some((15, 23)) && DepositRest != []
  {
    DepositAmounts();
  }

  lemma DepositGrouped()
    ensures IsGroupedInt("6,000") && RemoveCommas("6,000") == "6000"
  {
    assert "6,000"[..1] == "6";
    assert "6,000"[2..] == "000";
  }

  lemma DepositDigits()
    ensures DigitsValue("6000") == 6000 && DigitsValue("00") == 0
  {
    assert "6000"[..3] == "600" && "600"[..2] == "60" && "60"[..1] == "6";
    assert DigitsValue("6") == 6 && DigitsValue("60") == 60 && DigitsValue("600") == 600;
    assert "00"[..1] == "0";
    assert DigitsValue("0") == 0;
  }

  lemma DepositCents()
    ensures ParseAmount(DepositRest[15..23]) == Success(600000)
  {
    assert DepositRest[15..23] == "6,000" + ['.'] + "00";
    DepositGrouped();
    ParsePointAmount("6,000", "00");
    DepositDigits();
  }

  lemma DepositDescription()
    ensures Strip(DepositRest[..15]) == DepositText
  {
    assert DepositRest[..15] == "" + DepositText + " ";
    StripPadded("", DepositText, " ");
    StripOfStripped(DepositText);
  }

  lemma DepositKept()
    ensures !ContainsAny(Lower(DepositText), SkipKeywords) && |DepositText| == 14
  {
    NoLetterLIsNeverSkipped(DepositText);
  }

  /** In a deposits section the line is +6,000.00: the comma group is read, not cut at the comma. */
  lemma DepositAnchor(category: Option<string>)
    ensures AnchorDraft(DepositLine, Credit, category)
            == Some(Draft("01/15/2024", DepositText, 600000, Credit, category))
  {
    DepositDate();
    DepositRemaining();
    DepositLast();
    DepositCents();
    DepositDescription();
    DepositKept();
    AnchorDraftOf(DepositLine, Credit, category, 10, DepositRest, 15, 23, 600000, DepositText);
    assert DepositLine[..10] == "01/15/2024";
  }
}
