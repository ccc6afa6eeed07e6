/** The selector score of `MatchCore` (CSLService/CSLService.cs:442-502): a bit set, lower is
    better, in which the more significant bits stand for the more important mismatches. */
module Matching {
  import opened Wrappers
  import opened Records
  import opened Tables

  /** A query: the ICAO type designator, the airline (operator) code and the livery, each optional. */
  datatype Request = Request(icao: Option<string>, airline: Option<string>, livery: Option<string>)

  /** `string.IsNullOrEmpty`. */
  predicate Empty(x: Option<string>) {
    x.None? || x.value == ""
  }

  /** The classified type of the query, when its designator is given and known. */
  function Requested(table: map<string, Aircraft>, req: Request): (r: Option<Aircraft>)
    ensures r.Some? <==> req.icao.Some? && req.icao.value in table
    ensures r.Some? ==> r.value == table[req.icao.value]
  {
    if req.icao.Some? && req.icao.value in table then Some(table[req.icao.value]) else None
  }

  /** The bit the source sets for a wake-category mismatch: an eleven-digit binary literal,
      the same bit as its second class comparison. */
  const WrittenWakeBit: bv16 := 0x100 // 0b00100000000

  /** The bit a wake-category mismatch evidently stands for: the one the unknown-type case sets
      and no comparison otherwise does. */
  const WakeBit: bv16 := 0x080 // 0b0010000000

  /** The bits of the type comparison between the requested type and a selector's type `icao`,
      with `wake` for a wake-category mismatch. */
  function TypeBits(table: map<string, Aircraft>, requested: Option<Aircraft>, icao: string, wake: bv16): bv16 {
    if requested.None? then 0x3F8 /* 0b1111111000 */
    else if icao in table then
      var a := requested.value;
      var other := table[icao];
      (if !(a.related.Some? && icao in a.related.value) then 0x018 /* 0b0000011000 */ else 0)
      | (if a.classType != other.classType then 0x020 /* 0b0000100000 */ else 0)
      | (if a.engineCount != other.engineCount then 0x040 /* 0b0001000000 */ else 0)
      | (if a.wakeCategory != other.wakeCategory then wake else 0)
      | (if a.classType != other.classType then 0x100 /* 0b0100000000 */ else 0)
      | (if (a.classType == 'H') != (other.classType == 'H') then 0x200 /* 0b1000000000 */ else 0)
    else 0x3F8 /* 0b1111111000 */
  }

  /** The score of selector `m` for the query `req`, with `wake` for a wake-category mismatch. */
  function ScoreWith(table: map<string, Aircraft>, req: Request, m: Selector, wake: bv16): bv16 {
    (if Empty(req.livery) || m.livery != req.livery then 0x001 /* 0b0000000001 */ else 0)
    | (if Empty(req.airline) || m.operator != req.airline then 0x00A /* 0b0000001010 */ else 0)
    | (if Empty(req.icao) || Some(m.icao) != req.icao then 0x004 /* 0b0000000100 */ else 0)
    | TypeBits(table, Requested(table, req), m.icao, wake)
  }

  /** The score as the source computes it. */
  function ScoreAsWritten(table: map<string, Aircraft>, req: Request, m: Selector): bv16 {
    ScoreWith(table, req, m, WrittenWakeBit)
  }

  /** The corrected score, with the wake comparison on its own bit. */
  function Score(table: map<string, Aircraft>, req: Request, m: Selector): bv16 {
    ScoreWith(table, req, m, WakeBit)
  }

  /** Both selectors are of known types that differ from the requested type in class and
      agree with each other in everything but the wake category, which only `m2`'s type
      does not share with the requested type. */
  predicate WakeOnlyApart(table: map<string, Aircraft>, req: Request, m1: Selector, m2: Selector) {
    && req.icao.Some? && req.icao.value in table && m1.icao in table && m2.icao in table
    && table[req.icao.value].related.None?
    && m1.icao != req.icao.value && m2.icao != req.icao.value
    && m1.operator == m2.operator && m1.livery == m2.livery
    && var a, o1, o2 := table[req.icao.value], table[m1.icao], table[m2.icao];
      && o1.classType == o2.classType && o1.classType != a.classType
      && o1.engineCount == o2.engineCount
      && o1.wakeCategory == a.wakeCategory && o2.wakeCategory != a.wakeCategory
  }

  /** As written, a wake-category mismatch costs nothing once the class differs: the selector
      whose type also differs in wake ties with the one whose type does not. With the wake
      comparison on its own bit, it scores worse. */
  lemma WakeMaskedAsWritten(table: map<string, Aircraft>, req: Request, m1: Selector, m2: Selector)
    requires WakeOnlyApart(table, req, m1, m2)
    ensures ScoreAsWritten(table, req, m1) == ScoreAsWritten(table, req, m2)
    ensures Score(table, req, m1) < Score(table, req, m2)
  {
    var a := table[req.icao.value];
    var t1 := TypeBits(table, Requested(table, req), m1.icao, WakeBit);
    var t2 := TypeBits(table, Requested(table, req), m2.icao, WakeBit);
    assert t1 == 0x018 | 0x020 | (if a.engineCount != table[m1.icao].engineCount then 0x040 else 0) | 0x100
      | (if (a.classType == 'H') != (table[m1.icao].classType == 'H') then 0x200 else 0);
    assert t2 == t1 | 0x080;
  }

  /** A concrete instance: a query for a landplane of medium wake, and two helicopters of the
      same engine count, one of medium wake and one of heavy wake. */
  const WakeTable: map<string, Aircraft> := map[
    "A" := Aircraft("A", 'L', 2, 'J', 'M', None),
    "B" := Aircraft("B", 'H', 2, 'J', 'M', None),
    "C" := Aircraft("C", 'H', 2, 'J', 'H', None)]

  lemma WakeMaskedExample()
    ensures ScoreAsWritten(WakeTable, Request(Some("A"), None, None), Selector("B", None, None))
         == ScoreAsWritten(WakeTable, Request(Some("A"), None, None), Selector("C", None, None))
    ensures Score(WakeTable, Request(Some("A"), None, None), Selector("B", None, None))
          < Score(WakeTable, Request(Some("A"), None, None), Selector("C", None, None))
  {
    WakeMaskedAsWritten(WakeTable, Request(Some("A"), None, None), Selector("B", None, None), Selector("C", None, None));
  }

  /** Which bit a wake-category mismatch sets: the source's literal, or the corrected bit. */
  datatype WakeRule = AsWritten | Corrected

  function WakeBitOf(rule: WakeRule): bv16 {
    if rule.AsWritten? then WrittenWakeBit else WakeBit
  }

  /** The score under a wake rule: `ScoreAsWritten` for `AsWritten`, `Score` for `Corrected`. */
  function ScoreBy(table: map<string, Aircraft>, req: Request, m: Selector, rule: WakeRule): bv16 {
    ScoreWith(table, req, m, WakeBitOf(rule))
  }

  /** The initial best score of `MatchCore`. */
  const WorstScore: int := 0x3FF // 0b1111111111

  /** With the wake comparison on its own bit, every score fits in ten bits, and bit 128 is set
      exactly when one of the two types is unknown or their wake categories differ. */
  lemma ScoreBounds(table: map<string, Aircraft>, req: Request, m: Selector)
    ensures Score(table, req, m) & 0xFC00 == 0
    ensures Score(table, req, m) & 0x080 != 0 <==>
      Requested(table, req).None? || m.icao !in table
      || Requested(table, req).value.wakeCategory != table[m.icao].wakeCategory
  {
    var t := TypeBits(table, Requested(table, req), m.icao, WakeBit);
    assert t & 0xFC07 == 0;
  }

  /** As written, every score fits in ten bits too, and bit 128 is set exactly when one of the
      two types is unknown: a wake mismatch between known types never reaches it. */
  lemma ScoreAsWrittenBit(table: map<string, Aircraft>, req: Request, m: Selector)
    ensures ScoreAsWritten(table, req, m) & 0xFC00 == 0
    ensures ScoreAsWritten(table, req, m) & 0x080 != 0 <==> Requested(table, req).None? || m.icao !in table
  {
    var t := TypeBits(table, Requested(table, req), m.icao, WrittenWakeBit);
    assert t & 0xFC07 == 0;
  }

  /** Under either wake rule the score fits in ten bits. */
  lemma ScoreFits(table: map<string, Aircraft>, req: Request, m: Selector, rule: WakeRule)
    ensures ScoreBy(table, req, m, rule) & 0xFC00 == 0
  {
    if rule.AsWritten? {
      ScoreAsWrittenBit(table, req, m);
    } else {
      ScoreBounds(table, req, m);
    }
  }

  /** The bounds on a score's value that the bits below imply. */
  lemma BitBounds(x: bv16)
    ensures x & 0xFC00 == 0 ==> x as int <= 0x3FF
    ensures x & 0xFFE4 == 0 ==> x as int <= 0x1B
    ensures x & 0xFFF4 == 0 ==> x as int <= 0x0B
    ensures x & 0x018 == 0x018 ==> x as int >= 0x18
    ensures x & 0x01C == 0x01C ==> x as int >= 0x1C
    ensures x & 0x00F == 0x00F ==> x as int >= 0x0F
  {
    if x & 0xFC00 == 0 { assert x <= 0x3FF; }
    if x & 0xFFE4 == 0 { assert x <= 0x1B; }
    if x & 0xFFF4 == 0 { assert x <= 0x0B; }
    if x & 0x018 == 0x018 { assert x >= 0x18; }
    if x & 0x01C == 0x01C { assert x >= 0x1C; }
    if x & 0x00F == 0x00F { assert x >= 0x0F; }
  }

  /** The score as the integer `MatchCore` compares: never worse than the initial best. */
  function Quality(table: map<string, Aircraft>, req: Request, m: Selector, rule: WakeRule): (q: int)
    ensures 0 <= q <= WorstScore
  {
    ScoreFits(table, req, m, rule);
    BitBounds(ScoreBy(table, req, m, rule));
    ScoreBy(table, req, m, rule) as int
  }

  /** The types a query for the known type `icao` prefers: its group, or the type alone. */
  function Preferred(table: map<string, Aircraft>, icao: string): set<string>
    requires icao in table
  {
    table[icao].related.GetOr({icao})
  }

  /** A selector of exactly the requested, known type scores at most 27, and at most 11 when the
      type has a group: the icao bit and the comparison bits stay clear. */
  lemma ExactIcaoScore(table: map<string, Aircraft>, req: Request, m: Selector, rule: WakeRule)
    requires req.icao.Some? && req.icao.value in table && TableOk(table)
    requires m.icao == req.icao.value
    ensures ScoreBy(table, req, m, rule) & 0xFFE4 == 0
    ensures table[m.icao].related.Some? ==> ScoreBy(table, req, m, rule) & 0xFFF4 == 0
  {
  }

  /** A selector of another type has the icao bit set, and both bits 8 and 16 when its type is
      not preferred; a livery or airline not asked for sets its bits whatever the selector. */
  lemma OtherScore(table: map<string, Aircraft>, req: Request, m: Selector, rule: WakeRule)
    requires req.icao.Some? && req.icao.value in table
    ensures m.icao != req.icao.value ==> ScoreBy(table, req, m, rule) & 0x004 != 0
    ensures m.icao !in Preferred(table, req.icao.value) ==> ScoreBy(table, req, m, rule) & 0x018 == 0x018
    ensures Empty(req.livery) ==> ScoreBy(table, req, m, rule) & 0x001 != 0
    ensures Empty(req.airline) ==> ScoreBy(table, req, m, rule) & 0x00A == 0x00A
    ensures m.icao != req.icao.value && Empty(req.airline) && Empty(req.livery) ==>
      ScoreBy(table, req, m, rule) & 0x00F == 0x00F
  {
  }

  /** Whatever the airline and livery asked for, a selector that scores no worse than one of
      exactly the requested type is of a preferred type: of the type's group when it has one,
      and of the type itself otherwise. */
  lemma ExactIcaoWins(table: map<string, Aircraft>, req: Request, m: Selector, m': Selector, rule: WakeRule)
    requires req.icao.Some? && req.icao.value in table && TableOk(table)
    requires m.icao == req.icao.value
    requires Quality(table, req, m', rule) <= Quality(table, req, m, rule)
    ensures m'.icao in Preferred(table, req.icao.value)
    ensures table[req.icao.value].related.None? ==> m'.icao == req.icao.value
  {
    ExactIcaoScore(table, req, m, rule);
    OtherScore(table, req, m', rule);
    BitBounds(ScoreBy(table, req, m, rule));
    BitBounds(ScoreBy(table, req, m', rule));
  }

  /** With no airline and no livery asked for, only a selector of exactly the requested type
      scores as well as one of that type: every other type adds the icao bit. */
  lemma ExactIcaoOnly(table: map<string, Aircraft>, req: Request, m: Selector, m': Selector, rule: WakeRule)
    requires req.icao.Some? && req.icao.value in table && TableOk(table)
    requires Empty(req.airline) && Empty(req.livery)
    requires m.icao == req.icao.value
    requires Quality(table, req, m', rule) <= Quality(table, req, m, rule)
    ensures m'.icao == req.icao.value
  {
    ExactIcaoWins(table, req, m, m', rule);
    ExactIcaoScore(table, req, m, rule);
    OtherScore(table, req, m', rule);
    BitBounds(ScoreBy(table, req, m, rule));
    BitBounds(ScoreBy(table, req, m', rule));
  }
}
