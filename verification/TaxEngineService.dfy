/** The tax engine as methods over the tenant's stored catalogs and rules: apps/fiscal/tax_engine.py. */
module TaxEngineServices {
  import opened Prelude
  import opened TaxEngine
  import Text

  class TaxRuleStore {
    var catalogs: seq<Catalog>
    var rules: seq<Rule>

    function Rows(): Fiscal
      reads this
    {
      Fiscal(catalogs, rules)
    }

    constructor ()
      ensures Rows() == Fiscal([], [])
    {
      catalogs, rules := [], [];
    }

    method CreateCatalog() returns (c: nat)
      modifies this`catalogs
      ensures Rows() == TaxEngine.CreateCatalog(old(Rows()))
      ensures c == |old(catalogs)| && c < |catalogs|
      ensures forall i :: 0 <= i < c ==> catalogs[i].version < catalogs[c].version
    {
      c := |catalogs|;
      catalogs := catalogs + [Catalog(LastVersion(catalogs) + 1, Draft, {})];
    }

    method AddRule(r: Rule) returns (res: Result<nat, FiscalError>)
      modifies this`rules
      ensures (Rows(), res) == TaxEngine.AddRule(old(Rows()), r)
    {
      if r.catalog >= |catalogs| {
        return Err(CatalogMissing);
      }
      if catalogs[r.catalog].status != Draft {
        return Err(CatalogNotEditable);
      }
      if HasKey(rules, Key(r)) {
        return Err(DuplicateRule);
      }
      rules := rules + [r];
      res := Ok(r.catalog);
    }

    method UpdateChecklist(c: nat, ticked: set<CheckItem>, cleared: set<CheckItem>)
        returns (res: Result<nat, FiscalError>)
      modifies this`catalogs
      ensures (Rows(), res) == TaxEngine.UpdateChecklist(old(Rows()), c, ticked, cleared)
    {
      if c >= |catalogs| {
        return Err(CatalogMissing);
      }
      if catalogs[c].status != Draft {
        return Err(CatalogNotEditable);
      }
      var checklist := catalogs[c].checklist - cleared + ticked;
      catalogs := catalogs[c := catalogs[c].(checklist := checklist)];
      res := Ok(c);
    }

    method PublishCatalog(c: nat) returns (res: Result<nat, FiscalError>)
      modifies this`catalogs
      ensures (Rows(), res) == Publish(old(Rows()), c)
    {
      if c >= |catalogs| {
        return Err(CatalogMissing);
      }
      if catalogs[c].status != Draft {
        return Err(CatalogNotEditable);
      }
      var missing := CHECKLIST - catalogs[c].checklist;
      if missing != {} {
        return Err(ChecklistIncomplete(missing));
      }
      var row := catalogs[c];
      catalogs := Retired(catalogs);
      catalogs := catalogs[c := row.(status := Published)];
      res := Ok(c);
    }

    /** Appends the candidate texts one by one, each trimmed and once. */
    static method ServiceCodeCandidates(national: National, q: Query) returns (out: seq<string>)
      ensures out == Candidates(national, q)
    {
      out := Append([], q.code);
      AddOne([], q.code);
      if q.service.Some? {
        AddAllConcat([], [q.code], Offered(national, q)[1..]);
        assert Offered(national, q) == [q.code] + Offered(national, q)[1..];
        assert Offered(national, q)[1..] == [q.service.value.code, q.service.value.nacional, q.service.value.lc116]
          + NationalTexts(national, q.service.value);
        out := AppendService(out, national, q.service.value);
      } else {
        assert Offered(national, q) == [q.code];
      }
    }

    static method AppendService(before: seq<string>, national: National, service: Service) returns (out: seq<string>)
      ensures out == AddAll(before, [service.code, service.nacional, service.lc116] + NationalTexts(national, service))
    {
      out := Append(before, service.code);
      out := Append(out, service.nacional);
      out := Append(out, service.lc116);
      AddThree(before, service.code, service.nacional, service.lc116);
      AddAllConcat(before, [service.code, service.nacional, service.lc116], NationalTexts(national, service));
      var nacional := Text.Strip(service.nacional);
      if nacional != "" {
        var item := Lookup(national, nacional);
        if item.Some? {
          out := AppendItem(out, item.value);
        }
      }
    }

    static method AppendItem(before: seq<string>, item: Item) returns (out: seq<string>)
      ensures out == AddAll(before, [item.hint, item.codigo] + NumberTexts(item))
    {
      out := Append(before, item.hint);
      out := Append(out, item.codigo);
      AddTwo(before, item.hint, item.codigo);
      AddAllConcat(before, [item.hint, item.codigo], NumberTexts(item));
      if item.item != 0 && item.subitem != 0 {
        AddTwo(out, PaddedText(item), PlainText(item));
        out := Append(out, PaddedText(item));
        out := Append(out, PlainText(item));
      }
    }

    static method Append(before: seq<string>, value: string) returns (out: seq<string>)
      ensures out == Add(before, value)
    {
      var text := Text.Strip(value);
      out := before;
      if text != "" && text !in out {
        out := out + [text];
      }
    }

    method ResolveTaxRuleDetailed(national: National, fallback: bool, q: Query)
        returns (res: Result<(Rule, Mode), FiscalError>)
      ensures res == Resolve(Rows(), national, fallback, q)
    {
      var published := PublishedId(catalogs);
      if published.None? {
        return Err(NoPublishedCatalog);
      }
      var rows := Base(rules, published.value, q);
      var candidates := ServiceCodeCandidates(national, q);
      var i := 0;
      while i < |candidates|
        invariant i <= |candidates|
        invariant ByCode(rows, candidates[i..]) == ByCode(rows, candidates)
      {
        assert candidates[i..][1..] == candidates[i + 1..];
        var found := First(WithCode(rows, candidates[i]));
        if found.Some? {
          FirstIsLeast(WithCode(rows, candidates[i]));
          WithCodeRows(rows, candidates[i], found.value);
          var mode := if candidates[i] == Text.Strip(q.code) then Exact else Alias;
          return Ok((found.value, mode));
        }
        i := i + 1;
      }
      if fallback && InNational(national, q) {
        var found := First(rows);
        if found.Some? {
          return Ok((found.value, NationalFallback));
        }
      }
      res := Err(RuleNotFound);
    }
  }
}
