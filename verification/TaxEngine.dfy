/** Versioned tax catalogs and rule resolution, as values: apps/fiscal/tax_engine.py. A catalog is named by
    its position; the rows keep the order in which the database lists them. */
module TaxEngine {
  import opened Prelude
  import Text

  datatype CatalogStatus = Draft | Published | Superseded
  datatype CheckItem = CsvValidated | RulesReviewed | TermsAccepted
  datatype Catalog = Catalog(version: nat, status: CatalogStatus, checklist: set<CheckItem>)

  /** `details` stands for the rates and other fields the resolution does not read; dates are day numbers. */
  datatype Rule = Rule(
    catalog: nat, profile: nat, ibge: string, code: string, regime: string, validFrom: int, validTo: Option<int>,
    priority: int, details: nat)
  datatype NaturalKey = NaturalKey(catalog: nat, profile: nat, ibge: string, code: string, regime: string,
      validFrom: int)
  datatype Fiscal = Fiscal(catalogs: seq<Catalog>, rules: seq<Rule>)

  datatype FiscalError =
    | CatalogMissing | CatalogNotEditable | ChecklistIncomplete(missing: set<CheckItem>) | DuplicateRule
    | NoPublishedCatalog | RuleNotFound

  const CHECKLIST: set<CheckItem> := {CsvValidated, RulesReviewed, TermsAccepted}

  function Key(r: Rule): NaturalKey { NaturalKey(r.catalog, r.profile, r.ibge, r.code, r.regime, r.validFrom) }

  // ---- catalogs ---------------------------------------------------------------------------------

  function LastVersion(catalogs: seq<Catalog>): (v: nat)
    ensures forall c :: c in catalogs ==> c.version <= v
  {
    if catalogs == [] then 0 else
      var rest := LastVersion(catalogs[1..]);
      if catalogs[0].version < rest then rest else catalogs[0].version
  }

  function CreateCatalog(s: Fiscal): Fiscal {
    s.(catalogs := s.catalogs + [Catalog(LastVersion(s.catalogs) + 1, Draft, {})])
  }

  function Editable(s: Fiscal, c: nat): Result<Catalog, FiscalError> {
    if c >= |s.catalogs| then Err(CatalogMissing)
    else if s.catalogs[c].status != Draft then Err(CatalogNotEditable)
    else Ok(s.catalogs[c])
  }

  predicate HasKey(rules: seq<Rule>, k: NaturalKey) { exists r :: r in rules && Key(r) == k }

  function AddRule(s: Fiscal, r: Rule): (Fiscal, Result<nat, FiscalError>) {
    match Editable(s, r.catalog)
    case Err(e) => (s, Err(e))
    case Ok(_) =>
      if HasKey(s.rules, Key(r)) then (s, Err(DuplicateRule))
      else (s.(rules := s.rules + [r]), Ok(r.catalog))
  }

  function UpdateChecklist(s: Fiscal, c: nat, ticked: set<CheckItem>, cleared: set<CheckItem>)
    : (Fiscal, Result<nat, FiscalError>)
  {
    match Editable(s, c)
    case Err(e) => (s, Err(e))
    case Ok(row) => (s.(catalogs := s.catalogs[c := row.(checklist := row.checklist - cleared + ticked)]), Ok(c))
  }

  function Retired(catalogs: seq<Catalog>): (r: seq<Catalog>)
    ensures |r| == |catalogs|
    ensures forall i :: 0 <= i < |r| ==>
      r[i] == if catalogs[i].status == Published then catalogs[i].(status := Superseded) else catalogs[i]
  {
    if catalogs == [] then []
    else
      [if catalogs[0].status == Published then catalogs[0].(status := Superseded) else catalogs[0]]
          + Retired(catalogs[1..])
  }

  function Publish(s: Fiscal, c: nat): (Fiscal, Result<nat, FiscalError>) {
    match Editable(s, c)
    case Err(e) => (s, Err(e))
    case Ok(row) =>
      if CHECKLIST - row.checklist != {} then (s, Err(ChecklistIncomplete(CHECKLIST - row.checklist)))
      else (s.(catalogs := Retired(s.catalogs)[c := row.(status := Published)]), Ok(c))
  }

  datatype Step =
    | CreateStep
    | AddStep(rule: Rule)
    | ChecklistStep(catalog: nat, ticked: set<CheckItem>, cleared: set<CheckItem>)
    | PublishStep(catalog: nat)

  function Perform(s: Fiscal, step: Step): Fiscal {
    match step
    case CreateStep => CreateCatalog(s)
    case AddStep(r) => AddRule(s, r).0
    case ChecklistStep(c, ticked, cleared) => UpdateChecklist(s, c, ticked, cleared).0
    case PublishStep(c) => Publish(s, c).0
  }

  function Run(s: Fiscal, steps: seq<Step>): Fiscal
    decreases |steps|
  {
    if steps == [] then s else Run(Perform(s, steps[0]), steps[1..])
  }

  /** Each step of a run is one of the calls above. */
  lemma StepIsCall(s: Fiscal, step: Step)
    ensures var t := Perform(s, step);
      match step
      case CreateStep => t == CreateCatalog(s)
      case AddStep(r) => t == AddRule(s, r).0
      case ChecklistStep(c, ticked, cleared) => t == UpdateChecklist(s, c, ticked, cleared).0
      case PublishStep(c) => t == Publish(s, c).0
  {
  }

  // ---- candidate codes --------------------------------------------------------------------------

  datatype Service = Service(code: string, nacional: string, lc116: string)
  datatype Item = Item(codigo: string, item: nat, subitem: nat, hint: string)

  /** The items of the published national list by code, if a list is published. */
  type National = Option<map<string, Item>>

  datatype Query = Query(
    profile: nat, ibge: string, code: string, regime: string, date: int, service: Option<Service>)

  function Digits(s: string): string {
    if s == "" then "" else (if Text.IsDigit(s[0]) then [s[0]] else "") + Digits(s[1..])
  }

  /** By the code itself, or by its digits alone. */
  function Lookup(national: National, code: string): Option<Item> {
    if national.None? then None
    else if code in national.value then Some(national.value[code])
    else
      var digits := Digits(code);
      if digits != "" && digits in national.value then Some(national.value[digits]) else None
  }

  function TwoDigits(n: nat): string { if n < 10 then "0" + Text.Decimal(n) else Text.Decimal(n) }

  function PaddedText(i: Item): string { Text.Decimal(i.item) + "." + TwoDigits(i.subitem) }

  function PlainText(i: Item): string { Text.Decimal(i.item) + "." + Text.Decimal(i.subitem) }

  function NumberTexts(i: Item): seq<string> {
    if i.item != 0 && i.subitem != 0 then [PaddedText(i), PlainText(i)] else []
  }

  function NationalTexts(national: National, service: Service): seq<string> {
    var nacional := Text.Strip(service.nacional);
    if nacional == "" then []
    else match Lookup(national, nacional)
      case None => []
      case Some(item) => [item.hint, item.codigo] + NumberTexts(item)
  }

  /** The texts in the order they are offered, before trimming and dropping repetitions. */
  function Offered(national: National, q: Query): seq<string> {
    [q.code] +
    match q.service
    case None => []
    case Some(service) => [service.code, service.nacional, service.lc116] + NationalTexts(national, service)
  }

  function Add(out: seq<string>, value: string): seq<string> {
    var text := Text.Strip(value);
    if text != "" && text !in out then out + [text] else out
  }

  function AddAll(out: seq<string>, values: seq<string>): seq<string>
    decreases |values|
  {
    if values == [] then out else AddAll(Add(out, values[0]), values[1..])
  }

  function Candidates(national: National, q: Query): seq<string> { AddAll([], Offered(national, q)) }

  // ---- resolution -------------------------------------------------------------------------------

  datatype Mode = Exact | Alias | NationalFallback

  function PublishedId(catalogs: seq<Catalog>): (r: Option<nat>)
    ensures r.Some? ==> r.value < |catalogs| && catalogs[r.value].status == Published
    ensures r.None? ==> forall c :: c in catalogs ==> c.status != Published
  {
    if catalogs == [] then None
    else if catalogs[0].status == Published then Some(0)
    else match PublishedId(catalogs[1..])
      case None => None
      case Some(i) => Some(i + 1)
  }

  /** The rule belongs to the catalog, to the query's profile, place and regime, and is valid on its date. */
  predicate Applies(c: nat, q: Query, r: Rule) {
    && r.catalog == c && r.profile == q.profile && r.ibge == q.ibge && r.regime == q.regime
    && r.validFrom <= q.date && (r.validTo.Some? ==> q.date <= r.validTo.value)
  }

  function Base(rules: seq<Rule>, c: nat, q: Query): seq<Rule> {
    if rules == [] then []
    else
      var last := rules[|rules| - 1];
      Base(rules[..|rules| - 1], c, q) + if Applies(c, q, last) then [last] else []
  }

  function WithCode(rows: seq<Rule>, code: string): seq<Rule> {
    if rows == [] then []
    else
      var last := rows[|rows| - 1];
      WithCode(rows[..|rows| - 1], code) + if last.code == code then [last] else []
  }

  /** The order of the query: lower priority first, then the later start. */
  predicate Precedes(a: Rule, b: Rule) {
    a.priority < b.priority || (a.priority == b.priority && a.validFrom > b.validFrom)
  }

  /** The first row in that order; of equal rows the one listed first. */
  function First(rows: seq<Rule>): Option<Rule> {
    if rows == [] then None
    else
      var last := rows[|rows| - 1];
      match First(rows[..|rows| - 1])
      case None => Some(last)
      case Some(r) => if Precedes(last, r) then Some(last) else Some(r)
  }

  /** The first row of the first code that has any. */
  function ByCode(rows: seq<Rule>, codes: seq<string>): Option<Rule> {
    if codes == [] then None
    else
      var r := First(WithCode(rows, codes[0]));
      if r.Some? then r else ByCode(rows, codes[1..])
  }

  function NationalCode(q: Query): string {
    var nacional := if q.service.Some? then Text.Strip(q.service.value.nacional) else "";
    if nacional == "" then Text.Strip(q.code) else nacional
  }

  predicate InNational(national: National, q: Query) {
    NationalCode(q) != "" && Lookup(national, NationalCode(q)).Some?
  }

  function ResolveIn(rows: seq<Rule>, national: National, fallback: bool, q: Query): Result<(Rule, Mode), FiscalError> {
    var r := ByCode(rows, Candidates(national, q));
    if r.Some? then Ok((r.value, if r.value.code == Text.Strip(q.code) then Exact else Alias))
    else if fallback && InNational(national, q) && First(rows).Some? then Ok((First(rows).value, NationalFallback))
    else Err(RuleNotFound)
  }

  function Resolve(s: Fiscal, national: National, fallback: bool, q: Query): Result<(Rule, Mode), FiscalError> {
    match PublishedId(s.catalogs)
    case None => Err(NoPublishedCatalog)
    case Some(c) => ResolveIn(Base(s.rules, c, q), national, fallback, q)
  }

  lemma {:induction false} AddAllConcat(out: seq<string>, a: seq<string>, b: seq<string>)
    ensures AddAll(out, a + b) == AddAll(AddAll(out, a), b)
    decreases |a|
  {
    if a == [] {
      assert a + b == b;
    } else {
      assert (a + b)[1..] == a[1..] + b;
      AddAllConcat(Add(out, a[0]), a[1..], b);
    }
  }

  lemma AddOne(out: seq<string>, a: string)
    ensures AddAll(out, [a]) == Add(out, a)
  {
    assert [a][1..] == [];
  }

  lemma AddTwo(out: seq<string>, a: string, b: string)
    ensures AddAll(out, [a, b]) == Add(Add(out, a), b)
  {
    AddOne(Add(out, a), b);
    assert [a, b][1..] == [b];
  }

  lemma AddThree(out: seq<string>, a: string, b: string, c: string)
    ensures AddAll(out, [a, b, c]) == Add(Add(Add(out, a), b), c)
  {
    AddTwo(Add(out, a), b, c);
    assert [a, b, c][1..] == [b, c];
  }

  // ---- candidate lemmas -------------------------------------------------------------------------

  ghost predicate Distinct(texts: seq<string>) { forall i, j :: 0 <= i < j < |texts| ==> texts[i] != texts[j] }

  /** Some offered text trims to `c`. */
  ghost predicate Offers(values: seq<string>, c: string) { exists v :: v in values && Text.Strip(v) == c }

  lemma AddRow(out: seq<string>, value: string, c: string)
    requires Distinct(out)
    ensures Distinct(Add(out, value))
    ensures c in Add(out, value) <==> c in out || (c != "" && Text.Strip(value) == c)
  {
  }

  lemma {:induction false} AddAllRows(out: seq<string>, values: seq<string>, c: string)
    requires Distinct(out)
    ensures Distinct(AddAll(out, values))
    ensures c in AddAll(out, values) <==> c in out || (c != "" && Offers(values, c))
    decreases |values|
  {
    if values != [] {
      AddRow(out, values[0], c);
      AddAllRows(Add(out, values[0]), values[1..], c);
      OffersFirst(values, c);
    }
  }

  lemma OffersFirst(values: seq<string>, c: string)
    requires values != []
    ensures Offers(values, c) <==> Text.Strip(values[0]) == c || Offers(values[1..], c)
  {
    assert values == [values[0]] + values[1..];
  }

  /** The candidates are exactly the non-empty trimmed forms of the offered texts, each once. */
  lemma CandidatesAreTrimmedTexts(national: National, q: Query, c: string)
    ensures Distinct(Candidates(national, q))
    ensures c in Candidates(national, q) <==> c != "" && Offers(Offered(national, q), c)
  {
    AddAllRows([], Offered(national, q), c);
  }

  /** The first offered text, trimmed, that has any row: the search with repetitions left in. */
  function ByOffered(rows: seq<Rule>, values: seq<string>): Option<Rule> {
    if values == [] then None
    else
      var r := if Text.Strip(values[0]) == "" then None else First(WithCode(rows, Text.Strip(values[0])));
      if r.Some? then r else ByOffered(rows, values[1..])
  }

  lemma {:induction false} ByCodeAppend(rows: seq<Rule>, codes: seq<string>, c: string)
    ensures ByCode(rows, codes + [c]) ==
        if ByCode(rows, codes).Some? then ByCode(rows, codes) else First(WithCode(rows, c))
  {
    if codes != [] {
      assert (codes + [c])[1..] == codes[1..] + [c];
      ByCodeAppend(rows, codes[1..], c);
    }
  }

  lemma {:induction false} ByCodeNone(rows: seq<Rule>, codes: seq<string>, c: string)
    requires c in codes && ByCode(rows, codes).None?
    ensures First(WithCode(rows, c)).None?
  {
    if c != codes[0] { ByCodeNone(rows, codes[1..], c); }
  }

  /** Dropping repetitions changes neither the rule found nor its place in the search. */
  lemma {:induction false} RepetitionsDoNotMatter(rows: seq<Rule>, out: seq<string>, values: seq<string>)
    ensures ByCode(rows, AddAll(out, values)) ==
        if ByCode(rows, out).Some? then ByCode(rows, out) else ByOffered(rows, values)
    decreases |values|
  {
    if values != [] {
      var text := Text.Strip(values[0]);
      RepetitionsDoNotMatter(rows, Add(out, values[0]), values[1..]);
      if text in out {
        if ByCode(rows, out).None? { ByCodeNone(rows, out, text); }
      } else {
        ByCodeAppend(rows, out, text);
      }
    }
  }

  // ---- what resolution returns ------------------------------------------------------------------

  lemma {:induction false} BaseRows(rules: seq<Rule>, c: nat, q: Query, r: Rule)
    ensures r in Base(rules, c, q) <==> r in rules && Applies(c, q, r)
  {
    if rules != [] {
      BaseRows(rules[..|rules| - 1], c, q, r);
      assert rules == rules[..|rules| - 1] + [rules[|rules| - 1]];
    }
  }

  lemma {:induction false} WithCodeRows(rows: seq<Rule>, code: string, r: Rule)
    ensures r in WithCode(rows, code) <==> r in rows && r.code == code
  {
    if rows != [] {
      WithCodeRows(rows[..|rows| - 1], code, r);
      assert rows == rows[..|rows| - 1] + [rows[|rows| - 1]];
    }
  }

  /** The first row is a row that no other row precedes. */
  lemma {:induction false} FirstIsLeast(rows: seq<Rule>)
    ensures First(rows).None? <==> rows == []
    ensures First(rows).Some? ==> First(rows).value in rows
    ensures First(rows).Some? ==> forall x :: x in rows ==> !Precedes(x, First(rows).value)
  {
    if rows != [] {
      FirstIsLeast(rows[..|rows| - 1]);
      assert rows == rows[..|rows| - 1] + [rows[|rows| - 1]];
    }
  }

  /** No row carries any of the codes. */
  ghost predicate NoneWith(rows: seq<Rule>, codes: seq<string>) { forall r :: r in rows ==> r.code !in codes }

  lemma NoRowWith(rows: seq<Rule>, code: string)
    ensures First(WithCode(rows, code)).None? <==> forall r :: r in rows ==> r.code != code
  {
    var found := WithCode(rows, code);
    FirstIsLeast(found);
    forall r ensures r in found <==> r in rows && r.code == code { WithCodeRows(rows, code, r); }
    assert found != [] ==> found[0] in found;
  }

  lemma NoneWithSplits(rows: seq<Rule>, codes: seq<string>)
    requires codes != []
    ensures NoneWith(rows, codes) <==> (forall r :: r in rows ==> r.code != codes[0]) && NoneWith(rows, codes[1..])
  {
    assert codes == [codes[0]] + codes[1..];
  }

  lemma {:induction false} ByCodeNoneWith(rows: seq<Rule>, codes: seq<string>)
    ensures ByCode(rows, codes).None? <==> NoneWith(rows, codes)
  {
    if codes != [] {
      NoRowWith(rows, codes[0]);
      NoneWithSplits(rows, codes);
      ByCodeNoneWith(rows, codes[1..]);
    }
  }

  /** The place of the first code that has a row; the rule is the first row there. */
  lemma {:induction false} ByCodeAt(rows: seq<Rule>, codes: seq<string>) returns (k: nat)
    requires ByCode(rows, codes).Some?
    ensures k < |codes| && ByCode(rows, codes) == First(WithCode(rows, codes[k])) && ByCode(rows, codes[..k]).None?
  {
    if First(WithCode(rows, codes[0])).Some? {
      k := 0;
    } else {
      var rest := ByCodeAt(rows, codes[1..]);
      k := rest + 1;
      assert codes[..k][1..] == codes[1..][..rest];
    }
  }

  /** The rule may answer the query: read off its catalog, profile, place, regime and dates. */
  ghost predicate InForce(s: Fiscal, c: nat, q: Query, r: Rule) {
    && r in s.rules && r.catalog == c && r.profile == q.profile && r.ibge == q.ibge && r.regime == q.regime
    && r.validFrom <= q.date && (r.validTo == None || q.date <= r.validTo.value)
  }

  /** `r` is in force, and of the rules in force with its code it has the least priority number, and the latest
      start among those with that priority. */
  ghost predicate StrictlyFirst(s: Fiscal, c: nat, q: Query, r: Rule) {
    && InForce(s, c, q, r)
    && forall x :: InForce(s, c, q, x) && x.code == r.code && x != r ==>
         r.priority < x.priority || (r.priority == x.priority && r.validFrom > x.validFrom)
  }

  ghost predicate SomeApplies(s: Fiscal, c: nat, q: Query, codes: seq<string>) {
    exists r :: InForce(s, c, q, r) && r.code in codes
  }

  ghost predicate AnyApplies(s: Fiscal, c: nat, q: Query) {
    exists r :: InForce(s, c, q, r)
  }

  /** `code` is the first of the codes that any applying rule carries. */
  ghost predicate FirstCandidate(s: Fiscal, c: nat, q: Query, codes: seq<string>, code: string) {
    exists k: nat :: k < |codes| && codes[k] == code && !SomeApplies(s, c, q, codes[..k])
  }

  /** Two applying rules with one code have different starts, so the order never ties on a code. */
  lemma CodeHasNoTies(s: Fiscal, c: nat, q: Query, a: Rule, b: Rule)
    requires KeysDistinct(s.rules) && a != b && InForce(s, c, q, a) && InForce(s, c, q, b) && a.code == b.code
    ensures Precedes(a, b) || Precedes(b, a)
  {
    assert Key(a) != Key(b);
  }

  lemma BaseMembers(s: Fiscal, c: nat, q: Query)
    ensures forall r :: r in Base(s.rules, c, q) <==> InForce(s, c, q, r)
  {
    forall r ensures r in Base(s.rules, c, q) <==> InForce(s, c, q, r) { BaseRows(s.rules, c, q, r); }
  }

  lemma FoundIff(s: Fiscal, c: nat, q: Query, codes: seq<string>)
    ensures ByCode(Base(s.rules, c, q), codes).Some? <==> SomeApplies(s, c, q, codes)
  {
    BaseMembers(s, c, q);
    ByCodeNoneWith(Base(s.rules, c, q), codes);
  }

  lemma FoundIsFirst(s: Fiscal, c: nat, q: Query, codes: seq<string>)
    requires KeysDistinct(s.rules) && SomeApplies(s, c, q, codes)
    ensures var r := ByCode(Base(s.rules, c, q), codes);
      r.Some? && StrictlyFirst(s, c, q, r.value) && FirstCandidate(s, c, q, codes, r.value.code)
  {
    var rows := Base(s.rules, c, q);
    FoundIff(s, c, q, codes);
    BaseMembers(s, c, q);
    var k := ByCodeAt(rows, codes);
    var r := ByCode(rows, codes).value;
    FoundIff(s, c, q, codes[..k]);
    FirstIsLeast(WithCode(rows, codes[k]));
    WithCodeRows(rows, codes[k], r);
    forall x | x in rows && x.code == r.code && x != r ensures Precedes(r, x) {
      WithCodeRows(rows, codes[k], x);
      CodeHasNoTies(s, c, q, r, x);
    }
  }

  /** Main result on a match by code: the rule is of the published catalog, for the first candidate that
      any applying rule carries, strictly before every other applying rule with that code. */
  lemma MatchIsFirstCandidate(s: Fiscal, national: National, fallback: bool, q: Query, c: nat)
    requires KeysDistinct(s.rules) && PublishedId(s.catalogs) == Some(c)
    requires SomeApplies(s, c, q, Candidates(national, q))
    ensures var res := Resolve(s, national, fallback, q);
      && res.Ok? && res.value.1 != NationalFallback
      && StrictlyFirst(s, c, q, res.value.0)
      && FirstCandidate(s, c, q, Candidates(national, q), res.value.0.code)
      && (res.value.1 == Exact <==> res.value.0.code == Text.Strip(q.code))
  {
    FoundIsFirst(s, c, q, Candidates(national, q));
  }

  lemma {:induction false} ByOfferedAt(rows: seq<Rule>, values: seq<string>) returns (k: nat)
    requires ByOffered(rows, values).Some?
    ensures k < |values| && Text.Strip(values[k]) != "" && ByOffered(rows, values[..k]).None?
    ensures ByOffered(rows, values) == First(WithCode(rows, Text.Strip(values[k])))
  {
    if Text.Strip(values[0]) != "" && First(WithCode(rows, Text.Strip(values[0]))).Some? {
      k := 0;
    } else {
      var rest := ByOfferedAt(rows, values[1..]);
      k := rest + 1;
      assert values[..k][1..] == values[1..][..rest];
    }
  }

  lemma {:induction false} ByOfferedNone(rows: seq<Rule>, values: seq<string>, v: string, r: Rule)
    requires ByOffered(rows, values).None? && v in values && Text.Strip(v) != "" && r in rows
    ensures r.code != Text.Strip(v)
  {
    if v == values[0] {
      NoRowWith(rows, Text.Strip(v));
    } else {
      ByOfferedNone(rows, values[1..], v, r);
    }
  }

  /** No rule in force carries the text, trimmed; the empty text is carried by none. */
  ghost predicate CarriedByNone(s: Fiscal, c: nat, q: Query, text: string) {
    Text.Strip(text) == "" || forall x :: InForce(s, c, q, x) ==> x.code != Text.Strip(text)
  }

  /** The code of the match is the first of the texts, as they are offered, that any rule in force carries. */
  lemma MatchIsFirstOffered(s: Fiscal, national: National, fallback: bool, q: Query, c: nat) returns (k: nat)
    requires PublishedId(s.catalogs) == Some(c) && SomeApplies(s, c, q, Candidates(national, q))
    ensures Resolve(s, national, fallback, q).Ok? && k < |Offered(national, q)|
    ensures Resolve(s, national, fallback, q).value.0.code == Text.Strip(Offered(national, q)[k]) != ""
    ensures forall j :: 0 <= j < k ==> CarriedByNone(s, c, q, Offered(national, q)[j])
  {
    var rows, values := Base(s.rules, c, q), Offered(national, q);
    FoundIff(s, c, q, Candidates(national, q));
    RepetitionsDoNotMatter(rows, [], values);
    k := ByOfferedAt(rows, values);
    var code := Text.Strip(values[k]);
    FirstIsLeast(WithCode(rows, code));
    WithCodeRows(rows, code, First(WithCode(rows, code)).value);
    BaseMembers(s, c, q);
    forall j | 0 <= j < k ensures CarriedByNone(s, c, q, values[j]) {
      assert values[j] in values[..k];
      forall x | InForce(s, c, q, x) && Text.Strip(values[j]) != "" ensures x.code != Text.Strip(values[j]) {
        ByOfferedNone(rows, values[..k], values[j], x);
      }
    }
  }

  /** The texts in the order of the code: what was asked for, the three codes of the service, and of its entry in
      the national list the hint, the code, and the item with its subitem in two digits and then plain. */
  lemma OfferedTexts(national: National, q: Query, service: Service, e: Item)
    ensures q.service == None ==> Offered(national, q) == [q.code] + []
    ensures q.service == Some(service) ==>
      var known := Text.Strip(service.nacional) != "" && Lookup(national, Text.Strip(service.nacional)) == Some(e);
      var unknown := Text.Strip(service.nacional) == "" || Lookup(national, Text.Strip(service.nacional)) == None;
      var own := [service.code, service.nacional, service.lc116];
      && (unknown ==> Offered(national, q) == [q.code] + (own + []))
      && (known && (e.item == 0 || e.subitem == 0) ==>
            Offered(national, q) == [q.code] + (own + ([e.hint, e.codigo] + [])))
      && (known && e.item != 0 && e.subitem != 0 ==>
            Offered(national, q) == [q.code] + (own + ([e.hint, e.codigo] + [PaddedText(e), PlainText(e)])))
  {
  }

  lemma ItemTexts(e: Item)
    ensures PaddedText(e) == Text.Decimal(e.item) + "." +
              if e.subitem < 10 then "0" + Text.Decimal(e.subitem) else Text.Decimal(e.subitem)
    ensures PlainText(e) == Text.Decimal(e.item) + "." + Text.Decimal(e.subitem)
  {
  }

  /** An entry of the national list is found by its code, and by the digits of the text when no entry has the
      whole text as its code. */
  lemma LookupIff(national: National, code: string, entry: Item)
    ensures Lookup(national, code) == Some(entry) <==>
      && national.Some?
      && (if code in national.value then entry == national.value[code]
          else Digits(code) != "" && Digits(code) in national.value && entry == national.value[Digits(code)])
  {
  }

  /** The code is in the national list: that of the service, trimmed, when it has one, or else the one asked for;
      as it is or by its digits. */
  lemma InNationalIff(national: National, q: Query)
    ensures InNational(national, q) <==>
      var own := if q.service.Some? then Text.Strip(q.service.value.nacional) else "";
      var code := if own != "" then own else Text.Strip(q.code);
      && code != "" && national.Some?
      && (code in national.value || (Digits(code) != "" && Digits(code) in national.value))
  {
  }

  lemma {:induction false} DigitsSplit(a: string, b: string)
    ensures Digits(a + b) == Digits(a) + Digits(b)
    ensures forall c :: Digits([c]) == if '0' <= c <= '9' then [c] else ""
  {
    if a == "" {
      assert a + b == b;
    } else {
      assert (a + b)[1..] == a[1..] + b;
      DigitsSplit(a[1..], b);
    }
  }

  /** Without such a rule the national fallback answers with a first applying rule of any code, exactly when
      it is enabled, the code is in the national list, and some rule applies; otherwise nothing is found. */
  lemma FallbackIffNational(s: Fiscal, national: National, fallback: bool, q: Query, c: nat)
    requires PublishedId(s.catalogs) == Some(c) && !SomeApplies(s, c, q, Candidates(national, q))
    ensures var res := Resolve(s, national, fallback, q);
      if fallback && InNational(national, q) && AnyApplies(s, c, q) then
        && res.Ok? && res.value.1 == NationalFallback && PrecededByNone(s, c, q, res.value.0)
      else res == Err(RuleNotFound)
  {
    FoundIff(s, c, q, Candidates(national, q));
    BaseMembers(s, c, q);
    FirstIsLeast(Base(s.rules, c, q));
  }

  /** A match by code does not depend on the order in which the database lists the rules. */
  lemma MatchIgnoresRowOrder(s: Fiscal, t: Fiscal, national: National, fallback: bool, q: Query, c: nat)
    requires KeysDistinct(s.rules) && KeysDistinct(t.rules) && multiset(s.rules) == multiset(t.rules)
    requires PublishedId(s.catalogs) == PublishedId(t.catalogs) == Some(c)
    requires SomeApplies(s, c, q, Candidates(national, q))
    ensures Resolve(s, national, fallback, q) == Resolve(t, national, fallback, q)
  {
    SameFound(s, t, c, q, Candidates(national, q));
    FoundIff(s, c, q, Candidates(national, q));
  }

  lemma SameFound(s: Fiscal, t: Fiscal, c: nat, q: Query, codes: seq<string>)
    requires KeysDistinct(s.rules) && KeysDistinct(t.rules) && multiset(s.rules) == multiset(t.rules)
    requires SomeApplies(s, c, q, codes)
    ensures ByCode(Base(s.rules, c, q), codes) == ByCode(Base(t.rules, c, q), codes)
  {
    SameMembers(s.rules, t.rules);
    assert SomeApplies(t, c, q, codes);
    FoundIsFirst(s, c, q, codes);
    FoundIsFirst(t, c, q, codes);
    var a, b := ByCode(Base(s.rules, c, q), codes).value, ByCode(Base(t.rules, c, q), codes).value;
    SameFirstCandidate(s, t, c, q, codes, a.code, b.code);
    assert a != b ==> Precedes(a, b) && Precedes(b, a);
  }

  lemma SameFirstCandidate(s: Fiscal, t: Fiscal, c: nat, q: Query, codes: seq<string>, a: string, b: string)
    requires forall codes :: SomeApplies(s, c, q, codes) == SomeApplies(t, c, q, codes)
    requires FirstCandidate(s, c, q, codes, a) && FirstCandidate(t, c, q, codes, b)
    requires SomeApplies(s, c, q, [a]) && SomeApplies(t, c, q, [b])
    ensures a == b
  {
    var i: nat :| i < |codes| && codes[i] == a && !SomeApplies(s, c, q, codes[..i]);
    var j: nat :| j < |codes| && codes[j] == b && !SomeApplies(t, c, q, codes[..j]);
    AbsentFrom(s, c, q, codes[..i], b);
    AbsentFrom(t, c, q, codes[..j], a);
    assert forall k :: 0 <= k < j ==> codes[k] == codes[..j][k];
    assert forall k :: 0 <= k < i ==> codes[k] == codes[..i][k];
  }

  lemma AbsentFrom(s: Fiscal, c: nat, q: Query, codes: seq<string>, a: string)
    requires SomeApplies(s, c, q, [a]) && !SomeApplies(s, c, q, codes)
    ensures a !in codes
  {
  }

  lemma SameMembers(a: seq<Rule>, b: seq<Rule>)
    requires multiset(a) == multiset(b)
    ensures forall r :: r in a <==> r in b
  {
    forall r ensures r in a <==> r in b {
      assert r in a <==> r in multiset(a);
      assert r in b <==> r in multiset(b);
    }
  }

  /** `r` is in force, and of all rules in force, whatever their codes, it has the least priority number, and the
      latest start among those with that priority. */
  ghost predicate PrecedesAll(s: Fiscal, c: nat, q: Query, r: Rule) {
    && InForce(s, c, q, r)
    && forall x :: InForce(s, c, q, x) && x != r ==>
         r.priority < x.priority || (r.priority == x.priority && r.validFrom > x.validFrom)
  }

  /** `r` is in force, and no rule in force has a lesser priority number, or a later start with the same one. */
  ghost predicate PrecededByNone(s: Fiscal, c: nat, q: Query, r: Rule) {
    && InForce(s, c, q, r)
    && forall x :: InForce(s, c, q, x) ==>
         r.priority < x.priority || (r.priority == x.priority && r.validFrom >= x.validFrom)
  }

  ghost predicate HasStrictFirst(s: Fiscal, c: nat, q: Query) { exists r :: PrecedesAll(s, c, q, r) }

  ghost predicate SameRows(s: Fiscal, t: Fiscal) {
    t.catalogs == s.catalogs && multiset(t.rules) == multiset(s.rules)
  }

  lemma StrictFirstIsFirst(s: Fiscal, t: Fiscal, c: nat, q: Query)
    requires SameRows(s, t) && HasStrictFirst(s, c, q)
    ensures First(Base(t.rules, c, q)) == First(Base(s.rules, c, q))
  {
    SameMembers(s.rules, t.rules);
    BaseMembers(s, c, q);
    BaseMembers(t, c, q);
    FirstIsLeast(Base(s.rules, c, q));
    FirstIsLeast(Base(t.rules, c, q));
    var r :| PrecedesAll(s, c, q, r);
    assert r in Base(s.rules, c, q) && r in Base(t.rules, c, q);
  }

  lemma {:induction false} BasePrepend(r: Rule, rules: seq<Rule>, c: nat, q: Query)
    requires Applies(c, q, r)
    ensures Base([r] + rules, c, q) == [r] + Base(rules, c, q)
  {
    if rules == [] {
      BaseAppend([], r, c, q);
      assert [] + [r] == [r] && [r] + rules == [r];
    } else {
      var front, last := rules[..|rules| - 1], rules[|rules| - 1];
      BasePrepend(r, front, c, q);
      assert [r] + rules == ([r] + front) + [last];
      BaseAppend([r] + front, last, c, q);
    }
  }

  /** A row listed first is taken when no row precedes it. */
  lemma {:induction false} FirstListed(r: Rule, rows: seq<Rule>)
    requires forall x :: x in rows ==> !Precedes(x, r)
    ensures First([r] + rows) == Some(r)
  {
    var all := [r] + rows;
    if rows == [] {
      assert all[..0] == [];
    } else {
      var front := rows[..|rows| - 1];
      FirstListed(r, front);
      assert all[..|all| - 1] == [r] + front && all[|all| - 1] == rows[|rows| - 1];
    }
  }

  /** Rows in which a given first row comes first. */
  lemma ListedFirst(s: Fiscal, c: nat, q: Query, r: Rule) returns (t: Fiscal)
    requires PrecededByNone(s, c, q, r)
    ensures SameRows(s, t) && First(Base(t.rules, c, q)) == Some(r)
  {
    var i :| 0 <= i < |s.rules| && s.rules[i] == r;
    var rest := s.rules[..i] + s.rules[i + 1..];
    t := s.(rules := [r] + rest);
    assert s.rules == s.rules[..i] + [r] + s.rules[i + 1..];
    BasePrepend(r, rest, c, q);
    forall x | x in Base(rest, c, q) ensures !Precedes(x, r) { BaseRows(rest, c, q, x); }
    FirstListed(r, Base(rest, c, q));
  }

  /** The national fallback answers. */
  ghost predicate FallsBack(s: Fiscal, national: National, q: Query, c: nat) {
    && PublishedId(s.catalogs) == Some(c) && !SomeApplies(s, c, q, Candidates(national, q))
    && InNational(national, q) && AnyApplies(s, c, q)
  }

  lemma SameInForce(s: Fiscal, t: Fiscal, c: nat, q: Query, codes: seq<string>)
    requires SameRows(s, t)
    ensures SomeApplies(t, c, q, codes) == SomeApplies(s, c, q, codes) && AnyApplies(t, c, q) == AnyApplies(s, c, q)
  {
    SameMembers(s.rules, t.rules);
    assert forall r :: InForce(t, c, q, r) == InForce(s, c, q, r);
  }

  lemma FallbackAnswer(s: Fiscal, t: Fiscal, national: National, q: Query, c: nat)
    requires FallsBack(s, national, q, c) && SameRows(s, t)
    ensures First(Base(t.rules, c, q)).Some?
    ensures Resolve(t, national, true, q) == Ok((First(Base(t.rules, c, q)).value, NationalFallback))
  {
    SameInForce(s, t, c, q, Candidates(national, q));
    FoundIff(t, c, q, Candidates(national, q));
    FirstIsPrecededByNone(t, c, q);
  }

  /** The fallback answers alike for every order of the rows if and only if one applying rule strictly
      precedes every other by priority and then by the later start. */
  lemma FallbackIgnoresRowOrderIff(s: Fiscal, national: National, q: Query, c: nat)
    requires FallsBack(s, national, q, c)
    ensures HasStrictFirst(s, c, q) <==>
      forall t :: SameRows(s, t) ==> Resolve(t, national, true, q) == Resolve(s, national, true, q)
  {
    FallbackAnswer(s, s, national, q, c);
    if HasStrictFirst(s, c, q) {
      forall t | SameRows(s, t) ensures Resolve(t, national, true, q) == Resolve(s, national, true, q) {
        StrictFirstIsFirst(s, t, c, q);
        FallbackAnswer(s, t, national, q, c);
      }
    } else {
      var t := FallbackTies(s, national, q, c);
    }
  }

  lemma FirstIsPrecededByNone(s: Fiscal, c: nat, q: Query)
    requires AnyApplies(s, c, q)
    ensures First(Base(s.rules, c, q)).Some? && PrecededByNone(s, c, q, First(Base(s.rules, c, q)).value)
  {
    BaseMembers(s, c, q);
    FirstIsLeast(Base(s.rules, c, q));
  }

  /** When the first rule is not strict, another one ties with it. */
  lemma Rival(s: Fiscal, c: nat, q: Query, r: Rule) returns (x: Rule)
    requires PrecededByNone(s, c, q, r) && !PrecedesAll(s, c, q, r)
    ensures x != r && PrecededByNone(s, c, q, x)
  {
    x :| InForce(s, c, q, x) && x != r
        && !(r.priority < x.priority || (r.priority == x.priority && r.validFrom > x.validFrom));
  }

  /** Without a strict first rule, the rows can be listed so that another rule comes first. */
  lemma RelistedFirst(s: Fiscal, c: nat, q: Query) returns (t: Fiscal)
    requires AnyApplies(s, c, q) && !HasStrictFirst(s, c, q)
    ensures SameRows(s, t) && First(Base(t.rules, c, q)) != First(Base(s.rules, c, q))
  {
    FirstIsPrecededByNone(s, c, q);
    var x := Rival(s, c, q, First(Base(s.rules, c, q)).value);
    t := ListedFirst(s, c, q, x);
  }

  /** So the fallback answers another rule. */
  lemma FallbackTies(s: Fiscal, national: National, q: Query, c: nat) returns (t: Fiscal)
    requires FallsBack(s, national, q, c) && !HasStrictFirst(s, c, q)
    ensures SameRows(s, t) && Resolve(t, national, true, q) != Resolve(s, national, true, q)
  {
    t := RelistedFirst(s, c, q);
    FallbackAnswer(s, s, national, q, c);
    FallbackAnswer(s, t, national, q, c);
  }

  lemma BaseAppend(rules: seq<Rule>, r: Rule, c: nat, q: Query)
    ensures Base(rules + [r], c, q) == Base(rules, c, q) + if Applies(c, q, r) then [r] else []
  {
    assert (rules + [r])[..|rules|] == rules;
  }

  // ---- runs -------------------------------------------------------------------------------------

  ghost predicate KeysDistinct(rules: seq<Rule>) {
    forall r, x :: r in rules && x in rules && Key(r) == Key(x) ==> r == x
  }

  ghost predicate OnePublished(catalogs: seq<Catalog>) {
    forall i, j :: 0 <= i < |catalogs| && 0 <= j < |catalogs| && catalogs[i].status == Published
        && catalogs[j].status == Published
      ==> i == j
  }

  ghost predicate VersionsIncrease(catalogs: seq<Catalog>) {
    forall i, j :: 0 <= i < j < |catalogs| ==> catalogs[i].version < catalogs[j].version
  }

  ghost predicate Sound(s: Fiscal) {
    KeysDistinct(s.rules) && OnePublished(s.catalogs) && VersionsIncrease(s.catalogs)
  }

  lemma CreateIsSound(s: Fiscal)
    requires Sound(s)
    ensures Sound(CreateCatalog(s))
  {
  }

  lemma AddIsSound(s: Fiscal, r: Rule)
    requires Sound(s)
    ensures Sound(AddRule(s, r).0)
  {
  }

  lemma PublishIsSound(s: Fiscal, c: nat)
    requires Sound(s)
    ensures Sound(Publish(s, c).0)
  {
  }

  lemma StepIsSound(s: Fiscal, step: Step)
    requires Sound(s)
    ensures Sound(Perform(s, step))
  {
    match step
    case CreateStep => CreateIsSound(s);
    case AddStep(r) => AddIsSound(s, r);
    case ChecklistStep(_, _, _) =>
    case PublishStep(c) => PublishIsSound(s, c);
  }

  /** Over every run from nothing at most one catalog is published, versions are distinct and increase,
      and the natural key of a rule is unique. */
  lemma {:induction false} RunIsSound(s: Fiscal, steps: seq<Step>)
    requires Sound(s)
    ensures Sound(Run(s, steps))
    decreases |steps|
  {
    if steps != [] {
      StepIsSound(s, steps[0]);
      RunIsSound(Perform(s, steps[0]), steps[1..]);
    }
  }

  lemma NothingIsSound()
    ensures Sound(Fiscal([], []))
  {
  }

  /** The catalog has left DRAFT: its rules are fixed. */
  predicate Frozen(s: Fiscal, c: nat) { c < |s.catalogs| && s.catalogs[c].status != Draft }

  lemma StepKeepsFrozen(s: Fiscal, step: Step, c: nat, q: Query)
    requires Frozen(s, c)
    ensures var t := Perform(s, step); Frozen(t, c) && Base(t.rules, c, q) == Base(s.rules, c, q)
    ensures s.catalogs[c].status == Superseded ==> Perform(s, step).catalogs[c].status == Superseded
  {
    if step.AddStep? && AddRule(s, step.rule).1.Ok? {
      BaseAppend(s.rules, step.rule, c, q);
    }
  }

  lemma {:induction false} RunKeepsFrozen(s: Fiscal, steps: seq<Step>, c: nat, q: Query)
    requires Frozen(s, c)
    ensures var t := Run(s, steps); Frozen(t, c) && Base(t.rules, c, q) == Base(s.rules, c, q)
    ensures s.catalogs[c].status == Superseded ==> Run(s, steps).catalogs[c].status == Superseded
    decreases |steps|
  {
    if steps != [] {
      StepKeepsFrozen(s, steps[0], c, q);
      RunKeepsFrozen(Perform(s, steps[0]), steps[1..], c, q);
    }
  }

  /** Main result on runs: with the national list fixed, the answer to a query is settled by which catalog
      is published. No run changes it unless it ends with another catalog published. */
  lemma CatalogSettlesResolution(s: Fiscal, steps: seq<Step>, national: National, fallback: bool, q: Query)
    requires PublishedId(Run(s, steps).catalogs) == PublishedId(s.catalogs)
    ensures Resolve(Run(s, steps), national, fallback, q) == Resolve(s, national, fallback, q)
  {
    match PublishedId(s.catalogs)
    case None =>
    case Some(c) => RunKeepsFrozen(s, steps, c, q);
  }

  lemma {:induction false} PublishedIdIs(catalogs: seq<Catalog>, c: nat)
    requires OnePublished(catalogs) && c < |catalogs| && catalogs[c].status == Published
    ensures PublishedId(catalogs) == Some(c)
  {
  }

  /** Rows whose statuses are the same, and drafts after them, publish the same catalog. */
  lemma SameStatuses(a: seq<Catalog>, b: seq<Catalog>)
    requires OnePublished(a) && |a| <= |b|
    requires forall i :: 0 <= i < |a| ==> b[i].status == a[i].status
    requires forall i :: |a| <= i < |b| ==> b[i].status == Draft
    ensures PublishedId(b) == PublishedId(a)
  {
    if PublishedId(a).Some? {
      PublishedIdIs(b, PublishedId(a).value);
    } else {
      assert forall i :: 0 <= i < |a| ==> a[i] in a;
      assert forall i :: 0 <= i < |b| ==> b[i].status != Published;
    }
  }

  /** No run without a publish, and no refused publish, changes which catalog is published. */
  lemma StepKeepsPublished(s: Fiscal, step: Step)
    requires OnePublished(s.catalogs) && (step.PublishStep? ==> Publish(s, step.catalog).1.Err?)
    ensures PublishedId(Perform(s, step).catalogs) == PublishedId(s.catalogs)
  {
    SameStatuses(s.catalogs, Perform(s, step).catalogs);
  }

  /** Drafting never changes an answer: not until the next publish. */
  lemma {:induction false} DraftingKeepsResolution(s: Fiscal, steps: seq<Step>, national: National, fallback: bool,
      q: Query)
    requires Sound(s) && forall k :: 0 <= k < |steps| ==> !steps[k].PublishStep?
    ensures Resolve(Run(s, steps), national, fallback, q) == Resolve(s, national, fallback, q)
    decreases |steps|
  {
    if steps != [] {
      StepIsSound(s, steps[0]);
      StepKeepsPublished(s, steps[0]);
      assert Run(s, [steps[0]]) == Perform(s, steps[0]);
      CatalogSettlesResolution(s, [steps[0]], national, fallback, q);
      DraftingKeepsResolution(Perform(s, steps[0]), steps[1..], national, fallback, q);
    }
  }

  lemma MissingIff(checklist: set<CheckItem>)
    ensures CHECKLIST - checklist == {} <==> CHECKLIST <= checklist
  {
    assert CHECKLIST <= checklist ==> CHECKLIST - checklist == {};
    assert forall x :: x in CHECKLIST && x !in checklist ==> x in CHECKLIST - checklist;
  }

  lemma Listed(x: CheckItem)
    ensures x in CHECKLIST
  {
    match x
    case CsvValidated =>
    case RulesReviewed =>
    case TermsAccepted =>
  }

  lemma {:induction false} LastVersionIs(catalogs: seq<Catalog>)
    ensures LastVersion(catalogs) == 0 || exists c :: c in catalogs && c.version == LastVersion(catalogs)
  {
    if catalogs != [] {
      LastVersionIs(catalogs[1..]);
      assert catalogs[0] in catalogs;
      assert forall c :: c in catalogs[1..] ==> c in catalogs;
    }
  }

  /** The edits of a draft, and what a publish does to every row: a draft is edited and no other catalog; a rule
      is added unless one has its catalog, profile, place, code, regime and start. */
  lemma DraftCalls(s: Fiscal, r: Rule, c: nat, ticked: set<CheckItem>, cleared: set<CheckItem>)
    ensures var (t, res) := AddRule(s, r);
      && (res.Ok? <==>
            && r.catalog < |s.catalogs| && s.catalogs[r.catalog].status == Draft
            && forall x :: x in s.rules ==>
                 !(x.catalog == r.catalog && x.profile == r.profile && x.ibge == r.ibge && x.code == r.code
                   && x.regime == r.regime && x.validFrom == r.validFrom))
      && t.catalogs == s.catalogs && t.rules == s.rules + (if res.Ok? then [r] else [])
    ensures var (t, res) := UpdateChecklist(s, c, ticked, cleared);
      && (res.Ok? <==> c < |s.catalogs| && s.catalogs[c].status == Draft)
      && (res.Err? ==> t == s)
      && (res.Ok? ==>
            && t.rules == s.rules && |t.catalogs| == |s.catalogs|
            && (forall i :: 0 <= i < |s.catalogs| && i != c ==> t.catalogs[i] == s.catalogs[i])
            && t.catalogs[c].version == s.catalogs[c].version && t.catalogs[c].status == Draft
            && forall x :: x in t.catalogs[c].checklist <==>
                 x in ticked || (x in s.catalogs[c].checklist && x !in cleared))
    ensures var (t, res) := Publish(s, c);
      && (res.Err? ==> t == s)
      && (c < |s.catalogs| && s.catalogs[c].status == Draft && res.Err? ==>
            res.error.ChecklistIncomplete? && forall x :: x in res.error.missing <==> x !in s.catalogs[c].checklist)
      && (res.Ok? ==>
            && t.rules == s.rules && |t.catalogs| == |s.catalogs|
            && forall i: nat :: i < |s.catalogs| ==>
                 t.catalogs[i] == s.catalogs[i].(status := if i == c then Published
                                                          else if s.catalogs[i].status == Published then Superseded
                                                          else s.catalogs[i].status))
    ensures var t := CreateCatalog(s);
      && t.rules == s.rules && |t.catalogs| == |s.catalogs| + 1 && t.catalogs[..|s.catalogs|] == s.catalogs
      && t.catalogs[|s.catalogs|].status == Draft && t.catalogs[|s.catalogs|].checklist == {}
      && var version := t.catalogs[|s.catalogs|].version;
         && (forall x :: x in s.catalogs ==> x.version < version)
         && (version == 1 || exists x :: x in s.catalogs && x.version + 1 == version)
  {
    assert s.rules + [] == s.rules;
    forall x ensures x in CHECKLIST { Listed(x); }
    LastVersionIs(s.catalogs);
  }

  /** A publish succeeds exactly on a draft with its checklist complete; then that catalog is the published
      one, and the one before it is never published again, whatever follows. */
  lemma PublishTakesOver(s: Fiscal, c: nat, steps: seq<Step>)
    requires Sound(s)
    ensures Publish(s, c).1.Ok? <==>
        c < |s.catalogs| && s.catalogs[c].status == Draft && CHECKLIST <= s.catalogs[c].checklist
    ensures Publish(s, c).1.Ok? ==>
      && PublishedId(Publish(s, c).0.catalogs) == Some(c)
      && PublishedId(s.catalogs) != Some(c)
      && (PublishedId(s.catalogs).Some? ==>
        PublishedId(Run(Publish(s, c).0, steps).catalogs) != PublishedId(s.catalogs))
  {
    if c < |s.catalogs| { MissingIff(s.catalogs[c].checklist); }
    if Publish(s, c).1.Ok? {
      var t := Publish(s, c).0;
      StepIsSound(s, PublishStep(c));
      PublishedIdIs(t.catalogs, c);
      if PublishedId(s.catalogs).Some? {
        RunKeepsFrozen(t, steps, PublishedId(s.catalogs).value, Query(0, "", "", "", 0, None));
      }
    }
  }
}
