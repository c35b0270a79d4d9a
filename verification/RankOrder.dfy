/** The order of the ranked symbols: by falling score, then by file, then by name. */
module RankOrder {
  import opened RepoMapTypes
  import opened StableSort

  /** Character by character, a proper prefix first. */
  predicate StringLess(a: string, b: string) {
    b != "" && (a == "" || a[0] < b[0] || (a[0] == b[0] && StringLess(a[1..], b[1..])))
  }

  predicate RanksBefore(a: ScoredSymbol, b: ScoredSymbol) {
    if a.score != b.score then a.score > b.score
    else if a.symbol.file != b.symbol.file then StringLess(a.symbol.file, b.symbol.file)
    else StringLess(a.symbol.name, b.symbol.name)
  }

  /** Behind what they have in common the lesser text ends, or has the lesser character. */
  lemma {:induction false} StringLessMeaning(common: string, a: string, b: string)
    requires a == "" || b == "" || a[0] != b[0]
    ensures StringLess(common + a, common + b) <==> b != "" && (a == "" || a[0] < b[0])
    decreases |common|
  {
    var s, t := common + a, common + b;
    if common == "" {
      assert s == a && t == b;
    } else {
      assert s[0] == t[0] == common[0] && s[1..] == common[1..] + a && t[1..] == common[1..] + b;
      StringLessMeaning(common[1..], a, b);
    }
  }

  /** A higher score, or an equal one and the lesser file, or the same file and the lesser or the same name. */
  predicate MayStandBefore(a: ScoredSymbol, b: ScoredSymbol) {
    || a.score > b.score
    || (a.score == b.score && StringLess(a.symbol.file, b.symbol.file))
    || (a.score == b.score && a.symbol.file == b.symbol.file
        && (a.symbol.name == b.symbol.name || StringLess(a.symbol.name, b.symbol.name)))
  }

  lemma RankedMeaning(out: seq<ScoredSymbol>)
    requires InOrder(RanksBefore, out)
    ensures forall i, j :: 0 <= i < j < |out| ==> MayStandBefore(out[i], out[j])
  {
    forall i, j | 0 <= i < j < |out|
      ensures MayStandBefore(out[i], out[j])
    {
      assert !RanksBefore(out[j], out[i]);
      StringLessIsTotal(out[i].symbol.file, out[j].symbol.file);
      StringLessIsTotal(out[i].symbol.name, out[j].symbol.name);
    }
  }

  /** Of two different texts exactly one is less. */
  lemma {:induction false} StringLessIsTotal(a: string, b: string)
    ensures a != b <==> StringLess(a, b) || StringLess(b, a)
    ensures !(StringLess(a, b) && StringLess(b, a))
    decreases |a|
  {
    if a != "" && b != "" && a[0] == b[0] {
      StringLessIsTotal(a[1..], b[1..]);
      assert a == [a[0]] + a[1..] && b == [b[0]] + b[1..];
    }
  }

  lemma {:induction false} StringLessIsTransitive(a: string, b: string, c: string)
    requires StringLess(a, b) && StringLess(b, c)
    ensures StringLess(a, c)
    decreases |a|
  {
    if a != "" && a[0] == b[0] == c[0] {
      StringLessIsTransitive(a[1..], b[1..], c[1..]);
    }
  }

  lemma StringBetween(a: string, b: string, c: string)
    requires StringLess(a, c)
    ensures StringLess(a, b) || StringLess(b, c)
  {
    StringLessIsTotal(a, b);
    StringLessIsTotal(b, c);
    if StringLess(b, a) {
      StringLessIsTransitive(b, a, c);
    }
  }

  lemma RanksBetween(a: ScoredSymbol, b: ScoredSymbol, c: ScoredSymbol)
    requires RanksBefore(a, c)
    ensures RanksBefore(a, b) || RanksBefore(b, c)
  {
    var x, y, z := a.symbol, b.symbol, c.symbol;
    StringLessIsTotal(x.file, y.file);
    StringLessIsTotal(y.file, z.file);
    StringLessIsTotal(x.file, z.file);
    if StringLess(x.file, z.file) {
      StringBetween(x.file, y.file, z.file);
    }
    if StringLess(x.name, z.name) {
      StringBetween(x.name, y.name, z.name);
    }
  }

  lemma RanksBeforeOrders()
    ensures Orders(RanksBefore)
  {
    forall a, b | RanksBefore(a, b)
      ensures !RanksBefore(b, a)
    {
      StringLessIsTotal(a.symbol.file, b.symbol.file);
      StringLessIsTotal(a.symbol.name, b.symbol.name);
    }
    forall a, b, c | RanksBefore(a, c)
      ensures RanksBefore(a, b) || RanksBefore(b, c)
    {
      RanksBetween(a, b, c);
    }
  }

  /** Only equal scores, files and names tie. */
  lemma TiesAreEqualKeys(a: ScoredSymbol, b: ScoredSymbol)
    ensures Ties(RanksBefore, a, b) <==> a.score == b.score && a.symbol.file == b.symbol.file && a.symbol.name == b.symbol.name
  {
    StringLessIsTotal(a.symbol.file, b.symbol.file);
    StringLessIsTotal(a.symbol.name, b.symbol.name);
  }
}
