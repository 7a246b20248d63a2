/**
 * Column-header classification in `read_sheet`: each raw header of the sheet
 * is lower-cased and run through a fixed, ordered chain of substring tests;
 * the first test that holds names the canonical column, and a header no test
 * accepts keeps its own name.
 */
module Headers {
  import opened Text

  /** The eleven canonical column names, in the order the sheet schema lists them. */
  const Canonical: seq<string> :=
    ["date", "tool", "used_by", "department", "amount",
     "company", "status", "cycle", "renewal", "receipt", "desc"]

  /** Every word the chain looks for in a lower-cased header. */
  const Keywords: seq<string> :=
    ["date", "purchase", "tool", "service", "use", "department", "amount",
     "company", "status", "cycle", "renew", "receipt", "desc"]

  /** The first test: the header mentions "date", and mentions "purchase" or is exactly "date". */
  predicate IsPurchaseDate(lc: string)
  {
    Contains(lc, "date") && (Contains(lc, "purchase") || "date" == lc)
  }

  /** The `if`/`elif` chain on the lower-cased header `lc` of the column `header`. */
  function Target(lc: string, header: string): (r: string)
    ensures r in Canonical || r == header
  {
    if IsPurchaseDate(lc) then "date"
    else if Contains(lc, "tool") || Contains(lc, "service") then "tool"
    else if Contains(lc, "use") then "used_by"
    else if Contains(lc, "department") then "department"
    else if Contains(lc, "amount") then "amount"
    else if Contains(lc, "company") then "company"
    else if Contains(lc, "status") then "status"
    else if Contains(lc, "cycle") then "cycle"
    else if Contains(lc, "renew") then "renewal"
    else if Contains(lc, "receipt") then "receipt"
    else if Contains(lc, "desc") then "desc"
    else header
  }

  /** The name `read_sheet` gives the column headed `header` (its `col_map` entry). */
  function Classify(header: string): (r: string)
    ensures r in Canonical || r == header
  {
    Target(Lower(header), header)
  }

  // ---- An independent reading of the chain: an ordered table of rules ----

  /** One test of the chain, applied to the lower-cased header. */
  datatype Test =
    | PurchaseDate                             // contains "date", and contains "purchase" or is exactly "date"
    | Has(word: string)                        // contains the word
    | HasEither(first: string, second: string) // contains one of the two words

  datatype Rule = Rule(test: Test, target: string)

  predicate Holds(t: Test, lc: string)
  {
    match t
    case PurchaseDate => Contains(lc, "date") && (Contains(lc, "purchase") || "date" == lc)
    case Has(word) => Contains(lc, word)
    case HasEither(first, second) => Contains(lc, first) || Contains(lc, second)
  }

  /** The tests in priority order; rule `i` names `Canonical[i]`. */
  const Rules: seq<Rule> := [
    Rule(PurchaseDate, "date"),
    Rule(HasEither("tool", "service"), "tool"),
    Rule(Has("use"), "used_by"),
    Rule(Has("department"), "department"),
    Rule(Has("amount"), "amount"),
    Rule(Has("company"), "company"),
    Rule(Has("status"), "status"),
    Rule(Has("cycle"), "cycle"),
    Rule(Has("renew"), "renewal"),
    Rule(Has("receipt"), "receipt"),
    Rule(Has("desc"), "desc")
  ]

  /** First-match-wins evaluation of the rules from index `i` on; `header` when none of them holds. */
  function FirstMatch(rules: seq<Rule>, i: nat, lc: string, header: string): string
    decreases |rules| - i
  {
    if i >= |rules| then header
    else if Holds(rules[i].test, lc) then rules[i].target
    else FirstMatch(rules, i + 1, lc, header)
  }

  /** Rule `i` is the first rule at or after `k` that holds. */
  ghost predicate FirstHolding(rules: seq<Rule>, k: nat, i: nat, lc: string)
  {
    k <= i < |rules| && Holds(rules[i].test, lc) &&
    forall j :: k <= j < i ==> !Holds(rules[j].test, lc)
  }

  ghost predicate NoneHolds(rules: seq<Rule>, k: nat, lc: string)
  {
    forall j :: k <= j < |rules| ==> !Holds(rules[j].test, lc)
  }

  lemma {:induction false} FirstMatchPicks(rules: seq<Rule>, k: nat, i: nat, lc: string, header: string)
    requires FirstHolding(rules, k, i, lc)
    ensures FirstMatch(rules, k, lc, header) == rules[i].target
    decreases i - k
  {
    if k < i {
      FirstMatchPicks(rules, k + 1, i, lc, header);
    }
  }

  lemma {:induction false} FirstMatchNone(rules: seq<Rule>, k: nat, lc: string, header: string)
    requires NoneHolds(rules, k, lc)
    ensures FirstMatch(rules, k, lc, header) == header
    decreases |rules| - k
  {
    if k < |rules| {
      FirstMatchNone(rules, k + 1, lc, header);
    }
  }

  lemma {:induction false} FirstMatchCases(rules: seq<Rule>, k: nat, lc: string)
    ensures NoneHolds(rules, k, lc) || exists i :: FirstHolding(rules, k, i, lc)
    decreases |rules| - k
  {
    if k < |rules| && !Holds(rules[k].test, lc) {
      FirstMatchCases(rules, k + 1, lc);
      if !NoneHolds(rules, k + 1, lc) {
        var i :| FirstHolding(rules, k + 1, i, lc);
        assert FirstHolding(rules, k, i, lc);
      }
    } else if k < |rules| {
      assert FirstHolding(rules, k, k, lc);
    }
  }

  /** The last five rules, evaluated on their own. */
  lemma FirstMatchLate(lc: string, header: string)
    ensures FirstMatch(Rules, 6, lc, header) ==
      if Contains(lc, "status") then "status"
      else if Contains(lc, "cycle") then "cycle"
      else if Contains(lc, "renew") then "renewal"
      else if Contains(lc, "receipt") then "receipt"
      else if Contains(lc, "desc") then "desc"
      else header
  {
    var t := header;
    t := if Contains(lc, "desc") then "desc" else t;
    assert FirstMatch(Rules, 10, lc, header) == t;
    t := if Contains(lc, "receipt") then "receipt" else t;
    assert FirstMatch(Rules, 9, lc, header) == t;
    t := if Contains(lc, "renew") then "renewal" else t;
    assert FirstMatch(Rules, 8, lc, header) == t;
    t := if Contains(lc, "cycle") then "cycle" else t;
    assert FirstMatch(Rules, 7, lc, header) == t;
    t := if Contains(lc, "status") then "status" else t;
    assert FirstMatch(Rules, 6, lc, header) == t;
  }

  /** The chain and the rule table agree on every header. */
  lemma ClassifyIsFirstMatch(header: string)
    ensures Classify(header) == FirstMatch(Rules, 0, Lower(header), header)
  {
    var lc := Lower(header);
    FirstMatchLate(lc, header);
    var t := FirstMatch(Rules, 6, lc, header);
    t := if Contains(lc, "company") then "company" else t;
    assert FirstMatch(Rules, 5, lc, header) == t;
    t := if Contains(lc, "amount") then "amount" else t;
    assert FirstMatch(Rules, 4, lc, header) == t;
    t := if Contains(lc, "department") then "department" else t;
    assert FirstMatch(Rules, 3, lc, header) == t;
    t := if Contains(lc, "use") then "used_by" else t;
    assert FirstMatch(Rules, 2, lc, header) == t;
    t := if Contains(lc, "tool") || Contains(lc, "service") then "tool" else t;
    assert FirstMatch(Rules, 1, lc, header) == t;
    t := if IsPurchaseDate(lc) then "date" else t;
    assert FirstMatch(Rules, 0, lc, header) == t;
  }

  /**
   * First match wins: when rule `i` is the first rule, in source order, whose
   * test holds of the lower-cased header, the header becomes `Canonical[i]`.
   */
  lemma ClassifyFirstWins(header: string, i: nat)
    requires FirstHolding(Rules, 0, i, Lower(header))
    ensures Classify(header) == Canonical[i]
  {
    ClassifyIsFirstMatch(header);
    FirstMatchPicks(Rules, 0, i, Lower(header), header);
  }

  /** A header none of whose tests holds keeps its own name. */
  lemma ClassifyUnmatched(header: string)
    requires NoneHolds(Rules, 0, Lower(header))
    ensures Classify(header) == header
  {
    ClassifyIsFirstMatch(header);
    FirstMatchNone(Rules, 0, Lower(header), header);
  }

  /** In particular, a header mentioning none of the chain's words keeps its name. */
  lemma ClassifyNoKeyword(header: string)
    requires forall w :: w in Keywords ==> !Contains(Lower(header), w)
    ensures Classify(header) == header
  {
    var lc := Lower(header);
    assert !Contains(lc, Keywords[0]) && !Contains(lc, Keywords[1]) && !Contains(lc, Keywords[2]);
    assert !Contains(lc, Keywords[3]) && !Contains(lc, Keywords[4]) && !Contains(lc, Keywords[5]);
    assert !Contains(lc, Keywords[6]) && !Contains(lc, Keywords[7]) && !Contains(lc, Keywords[8]);
    assert !Contains(lc, Keywords[9]) && !Contains(lc, Keywords[10]) && !Contains(lc, Keywords[11]);
    assert !Contains(lc, Keywords[12]);
  }

  /** Classification is total: every header falls under exactly one of the two cases above. */
  lemma ClassifyTotal(header: string)
    ensures NoneHolds(Rules, 0, Lower(header)) || exists i :: FirstHolding(Rules, 0, i, Lower(header))
  {
    FirstMatchCases(Rules, 0, Lower(header));
  }

  // ---- The canonical names are fixed points ----

  /** The substring tests the chain applies to "date". */
  lemma WordsDate()
    ensures Contains("date", "date")
  {
    ContainsAt("date", "date", 0);
  }

  /** The substring tests the chain applies to "tool". */
  lemma WordsTool()
    ensures !Contains("tool", "date")
    ensures Contains("tool", "tool")
  {
    NotContainsByChar("tool", "date", 'd');
    ContainsAt("tool", "tool", 0);
  }

  /** The substring tests the chain applies to "used_by", part 1. */
  lemma WordsUsedBy1()
    ensures !Contains("used_by", "date")
    ensures !Contains("used_by", "tool")
    ensures !Contains("used_by", "service")
  {
    NotContainsByChar("used_by", "date", 'a');
    NotContainsByChar("used_by", "tool", 'o');
    NotContainsByChar("used_by", "service", 'r');
  }

  /** The substring tests the chain applies to "used_by", part 2. */
  lemma WordsUsedBy2()
    ensures Contains("used_by", "use")
  {
    ContainsAt("used_by", "use", 0);
  }

  /** "used_by" is claimed by the "use" test, the third of the chain. */
  /** The substring tests the chain applies to "department", part 1. */
  lemma WordsDepartment1()
    ensures !Contains("department", "purchase")
    ensures !Contains("department", "tool")
    ensures !Contains("department", "service")
  {
    NotContainsByChar("department", "purchase", 'u');
    NotContainsByChar("department", "tool", 'o');
    NotContainsByChar("department", "service", 's');
  }

  /** The substring tests the chain applies to "department", part 2. */
  lemma WordsDepartment2()
    ensures !Contains("department", "use")
    ensures Contains("department", "department")
  {
    NotContainsByChar("department", "use", 'u');
    ContainsAt("department", "department", 0);
  }

  /** "department" does not contain "use", so the "use" test lets it through. */
  /** The substring tests the chain applies to "amount", part 1. */
  lemma WordsAmount1()
    ensures !Contains("amount", "date")
    ensures !Contains("amount", "tool")
    ensures !Contains("amount", "service")
  {
    NotContainsByChar("amount", "date", 'd');
    NotContainsByChar("amount", "tool", 'l');
    NotContainsByChar("amount", "service", 's');
  }

  /** The substring tests the chain applies to "amount", part 2. */
  lemma WordsAmount2()
    ensures !Contains("amount", "use")
    ensures !Contains("amount", "department")
    ensures Contains("amount", "amount")
  {
    NotContainsByChar("amount", "use", 's');
    NotContainsByChar("amount", "department", 'd');
    ContainsAt("amount", "amount", 0);
  }

  /** The substring tests the chain applies to "company", part 1. */
  lemma WordsCompany1()
    ensures !Contains("company", "date")
    ensures !Contains("company", "tool")
    ensures !Contains("company", "service")
  {
    NotContainsByChar("company", "date", 'd');
    NotContainsByChar("company", "tool", 't');
    NotContainsByChar("company", "service", 's');
  }

  /** The substring tests the chain applies to "company", part 2. */
  lemma WordsCompany2()
    ensures !Contains("company", "use")
    ensures !Contains("company", "department")
    ensures !Contains("company", "amount")
  {
    NotContainsByChar("company", "use", 's');
    NotContainsByChar("company", "department", 'd');
    NotContainsByChar("company", "amount", 'u');
  }

  /** The substring tests the chain applies to "company", part 3. */
  lemma WordsCompany3()
    ensures Contains("company", "company")
  {
    ContainsAt("company", "company", 0);
  }

  /** The substring tests the chain applies to "status", part 1. */
  lemma WordsStatus1()
    ensures !Contains("status", "date")
    ensures !Contains("status", "tool")
    ensures !Contains("status", "service")
  {
    NotContainsByChar("status", "date", 'd');
    NotContainsByChar("status", "tool", 'o');
    NotContainsByChar("status", "service", 'e');
  }

  /** The substring tests the chain applies to "status", part 2. */
  lemma WordsStatus2()
    ensures !Contains("status", "use")
    ensures !Contains("status", "department")
    ensures !Contains("status", "amount")
  {
    NotContainsByChar("status", "use", 'e');
    NotContainsByChar("status", "department", 'd');
    NotContainsByChar("status", "amount", 'm');
  }

  /** The substring tests the chain applies to "status", part 3. */
  lemma WordsStatus3()
    ensures !Contains("status", "company")
    ensures Contains("status", "status")
  {
    NotContainsByChar("status", "company", 'c');
    ContainsAt("status", "status", 0);
  }

  /** "status" does not contain "use" either. */
  /** The substring tests the chain applies to "cycle", part 1. */
  lemma WordsCycle1()
    ensures !Contains("cycle", "date")
    ensures !Contains("cycle", "tool")
    ensures !Contains("cycle", "service")
  {
    NotContainsByChar("cycle", "date", 'd');
    NotContainsByChar("cycle", "tool", 't');
    NotContainsByChar("cycle", "service", 's');
  }

  /** The substring tests the chain applies to "cycle", part 2. */
  lemma WordsCycle2()
    ensures !Contains("cycle", "use")
    ensures !Contains("cycle", "department")
    ensures !Contains("cycle", "amount")
  {
    NotContainsByChar("cycle", "use", 'u');
    NotContainsByChar("cycle", "department", 'd');
    NotContainsByChar("cycle", "amount", 'a');
  }

  /** The substring tests the chain applies to "cycle", part 3. */
  lemma WordsCycle3()
    ensures !Contains("cycle", "company")
    ensures !Contains("cycle", "status")
    ensures Contains("cycle", "cycle")
  {
    NotContainsByChar("cycle", "company", 'o');
    NotContainsByChar("cycle", "status", 's');
    ContainsAt("cycle", "cycle", 0);
  }

  /** The substring tests the chain applies to "renewal", part 1. */
  lemma WordsRenewal1()
    ensures !Contains("renewal", "date")
    ensures !Contains("renewal", "tool")
    ensures !Contains("renewal", "service")
  {
    NotContainsByChar("renewal", "date", 'd');
    NotContainsByChar("renewal", "tool", 't');
    NotContainsByChar("renewal", "service", 's');
  }

  /** The substring tests the chain applies to "renewal", part 2. */
  lemma WordsRenewal2()
    ensures !Contains("renewal", "use")
    ensures !Contains("renewal", "department")
    ensures !Contains("renewal", "amount")
  {
    NotContainsByChar("renewal", "use", 'u');
    NotContainsByChar("renewal", "department", 'd');
    NotContainsByChar("renewal", "amount", 'm');
  }

  /** The substring tests the chain applies to "renewal", part 3. */
  lemma WordsRenewal3()
    ensures !Contains("renewal", "company")
    ensures !Contains("renewal", "status")
    ensures !Contains("renewal", "cycle")
  {
    NotContainsByChar("renewal", "company", 'c');
    NotContainsByChar("renewal", "status", 's');
    NotContainsByChar("renewal", "cycle", 'c');
  }

  /** The substring tests the chain applies to "renewal", part 4. */
  lemma WordsRenewal4()
    ensures Contains("renewal", "renew")
  {
    ContainsAt("renewal", "renew", 0);
  }

  /** The substring tests the chain applies to "receipt", part 1. */
  lemma WordsReceipt1()
    ensures !Contains("receipt", "date")
    ensures !Contains("receipt", "tool")
    ensures !Contains("receipt", "service")
  {
    NotContainsByChar("receipt", "date", 'd');
    NotContainsByChar("receipt", "tool", 'o');
    NotContainsByChar("receipt", "service", 's');
  }

  /** The substring tests the chain applies to "receipt", part 2. */
  lemma WordsReceipt2()
    ensures !Contains("receipt", "use")
    ensures !Contains("receipt", "department")
    ensures !Contains("receipt", "amount")
  {
    NotContainsByChar("receipt", "use", 'u');
    NotContainsByChar("receipt", "department", 'd');
    NotContainsByChar("receipt", "amount", 'a');
  }

  /** The substring tests the chain applies to "receipt", part 3. */
  lemma WordsReceipt3()
    ensures !Contains("receipt", "company")
    ensures !Contains("receipt", "status")
    ensures !Contains("receipt", "cycle")
  {
    NotContainsByChar("receipt", "company", 'o');
    NotContainsByChar("receipt", "status", 's');
    NotContainsByChar("receipt", "cycle", 'y');
  }

  /** The substring tests the chain applies to "receipt", part 4. */
  lemma WordsReceipt4()
    ensures !Contains("receipt", "renew")
    ensures Contains("receipt", "receipt")
  {
    NotContainsByChar("receipt", "renew", 'n');
    ContainsAt("receipt", "receipt", 0);
  }

  /** The substring tests the chain applies to "desc", part 1. */
  lemma WordsDesc1()
    ensures !Contains("desc", "date")
    ensures !Contains("desc", "tool")
    ensures !Contains("desc", "service")
  {
    NotContainsByChar("desc", "date", 'a');
    NotContainsByChar("desc", "tool", 't');
    NotContainsByChar("desc", "service", 'r');
  }

  /** The substring tests the chain applies to "desc", part 2. */
  lemma WordsDesc2()
    ensures !Contains("desc", "use")
    ensures !Contains("desc", "department")
    ensures !Contains("desc", "amount")
  {
    NotContainsByChar("desc", "use", 'u');
    NotContainsByChar("desc", "department", 'p');
    NotContainsByChar("desc", "amount", 'a');
  }

  /** The substring tests the chain applies to "desc", part 3. */
  lemma WordsDesc3()
    ensures !Contains("desc", "company")
    ensures !Contains("desc", "status")
    ensures !Contains("desc", "cycle")
  {
    NotContainsByChar("desc", "company", 'o');
    NotContainsByChar("desc", "status", 't');
    NotContainsByChar("desc", "cycle", 'y');
  }

  /** The substring tests the chain applies to "desc", part 4. */
  lemma WordsDesc4()
    ensures !Contains("desc", "renew")
    ensures !Contains("desc", "receipt")
    ensures Contains("desc", "desc")
  {
    NotContainsByChar("desc", "renew", 'r');
    NotContainsByChar("desc", "receipt", 'r');
    ContainsAt("desc", "desc", 0);
  }

  /** A header already in lower case is tested as it stands. */
  lemma ClassifyLowerCase(header: string)
    requires IsLowerCase(header)
    ensures Classify(header) == Target(header, header)
  {
    LowerOfLowerCase(header);
  }

  lemma FixedDate()
    ensures Classify("date") == "date"
  {
    ClassifyLowerCase("date");
    WordsDate();
  }

  lemma FixedTool()
    ensures Classify("tool") == "tool"
  {
    ClassifyLowerCase("tool");
    WordsTool();
  }

  lemma FixedUsedBy()
    ensures Classify("used_by") == "used_by"
  {
    ClassifyLowerCase("used_by");
    WordsUsedBy1();
    WordsUsedBy2();
  }

  lemma FixedDepartment()
    ensures Classify("department") == "department"
  {
    ClassifyLowerCase("department");
    WordsDepartment1();
    WordsDepartment2();
  }

  lemma FixedAmount()
    ensures Classify("amount") == "amount"
  {
    ClassifyLowerCase("amount");
    WordsAmount1();
    WordsAmount2();
  }

  lemma FixedCompany()
    ensures Classify("company") == "company"
  {
    ClassifyLowerCase("company");
    WordsCompany1();
    WordsCompany2();
    WordsCompany3();
  }

  lemma FixedStatus()
    ensures Classify("status") == "status"
  {
    ClassifyLowerCase("status");
    WordsStatus1();
    WordsStatus2();
    WordsStatus3();
  }

  lemma FixedCycle()
    ensures Classify("cycle") == "cycle"
  {
    ClassifyLowerCase("cycle");
    WordsCycle1();
    WordsCycle2();
    WordsCycle3();
  }

  lemma FixedRenewal()
    ensures Classify("renewal") == "renewal"
  {
    ClassifyLowerCase("renewal");
    WordsRenewal1();
    WordsRenewal2();
    WordsRenewal3();
    WordsRenewal4();
  }

  lemma FixedReceipt()
    ensures Classify("receipt") == "receipt"
  {
    ClassifyLowerCase("receipt");
    WordsReceipt1();
    WordsReceipt2();
    WordsReceipt3();
    WordsReceipt4();
  }

  lemma FixedDesc()
    ensures Classify("desc") == "desc"
  {
    ClassifyLowerCase("desc");
    WordsDesc1();
    WordsDesc2();
    WordsDesc3();
    WordsDesc4();
  }

  /** Each canonical name is classified as itself. */
  lemma CanonicalIsFixed(c: string)
    requires c in Canonical
    ensures Classify(c) == c
  {
    if c == "date" {
      FixedDate();
    } else if c == "tool" {
      FixedTool();
    } else if c == "used_by" {
      FixedUsedBy();
    } else if c == "department" {
      FixedDepartment();
    } else if c == "amount" {
      FixedAmount();
    } else if c == "company" {
      FixedCompany();
    } else if c == "status" {
      FixedStatus();
    } else if c == "cycle" {
      FixedCycle();
    } else if c == "renewal" {
      FixedRenewal();
    } else if c == "receipt" {
      FixedReceipt();
    } else {
      FixedDesc();
    }
  }

  /** Classifying twice names the same column as classifying once. */
  lemma ClassifyIdempotent(header: string)
    ensures Classify(Classify(header)) == Classify(header)
  {
    if Classify(header) in Canonical {
      CanonicalIsFixed(Classify(header));
    }
  }

  // ---- Headers of a typical sheet ----

  /** The substring tests the chain applies to "purchase date". */
  lemma WordsPurchaseDate()
    ensures Contains("purchase date", "date")
    ensures Contains("purchase date", "purchase")
  {
    ContainsAt("purchase date", "date", 9);
    ContainsAt("purchase date", "purchase", 0);
  }

  lemma TargetPurchaseDate()
    ensures Target("purchase date", "Purchase Date") == "date"
  {
    WordsPurchaseDate();
  }

  lemma ExamplePurchaseDate()
    ensures Classify("Purchase Date") == "date"
  {
    LowerIs("Purchase Date", "purchase date");
    TargetPurchaseDate();
  }

  /** The substring tests the chain applies to "date used", part 1. */
  lemma WordsDateUsed1()
    ensures !Contains("date used", "purchase")
    ensures !Contains("date used", "tool")
    ensures !Contains("date used", "service")
  {
    NotContainsByChar("date used", "purchase", 'p');
    NotContainsByChar("date used", "tool", 'o');
    NotContainsByChar("date used", "service", 'r');
  }

  /** The substring tests the chain applies to "date used", part 2. */
  lemma WordsDateUsed2()
    ensures Contains("date used", "use")
  {
    ContainsAt("date used", "use", 5);
  }

  /** A date that is not a purchase date falls through to the later tests. */
  lemma TargetDateUsed()
    ensures Target("date used", "Date Used") == "used_by"
  {
    WordsDateUsed1();
    WordsDateUsed2();
  }

  lemma ExampleDateUsed()
    ensures Classify("Date Used") == "used_by"
  {
    LowerIs("Date Used", "date used");
    TargetDateUsed();
  }

  /** The substring tests the chain applies to "service used". */
  lemma WordsServiceUsed()
    ensures !Contains("service used", "date")
    ensures Contains("service used", "service")
  {
    NotContainsByChar("service used", "date", 'a');
    ContainsAt("service used", "service", 0);
  }

  /** "tool" is tested before "use", so "Service Used" is the tool column. */
  lemma TargetServiceUsed()
    ensures Target("service used", "Service Used") == "tool"
  {
    WordsServiceUsed();
  }

  lemma ExampleServiceUsed()
    ensures Classify("Service Used") == "tool"
  {
    LowerIs("Service Used", "service used");
    TargetServiceUsed();
  }

  /** The substring tests the chain applies to "renewal date", part 1. */
  lemma WordsRenewalDate1()
    ensures !Contains("renewal date", "purchase")
    ensures !Contains("renewal date", "tool")
    ensures !Contains("renewal date", "service")
  {
    NotContainsByChar("renewal date", "purchase", 'p');
    NotContainsByChar("renewal date", "tool", 'o');
    NotContainsByChar("renewal date", "service", 's');
  }

  /** The substring tests the chain applies to "renewal date", part 2. */
  lemma WordsRenewalDate2()
    ensures !Contains("renewal date", "use")
    ensures !Contains("renewal date", "department")
    ensures !Contains("renewal date", "amount")
  {
    NotContainsByChar("renewal date", "use", 'u');
    NotContainsByChar("renewal date", "department", 'p');
    NotContainsByChar("renewal date", "amount", 'm');
  }

  /** The substring tests the chain applies to "renewal date", part 3. */
  lemma WordsRenewalDate3()
    ensures !Contains("renewal date", "company")
    ensures !Contains("renewal date", "status")
    ensures !Contains("renewal date", "cycle")
  {
    NotContainsByChar("renewal date", "company", 'c');
    NotContainsByChar("renewal date", "status", 's');
    NotContainsByChar("renewal date", "cycle", 'c');
  }

  /** The substring tests the chain applies to "renewal date", part 4. */
  lemma WordsRenewalDate4()
    ensures Contains("renewal date", "renew")
  {
    ContainsAt("renewal date", "renew", 0);
  }

  lemma TargetRenewalDate()
    ensures Target("renewal date", "Renewal Date") == "renewal"
  {
    WordsRenewalDate1();
    WordsRenewalDate2();
    WordsRenewalDate3();
    WordsRenewalDate4();
  }

  lemma ExampleRenewalDate()
    ensures Classify("Renewal Date") == "renewal"
  {
    LowerIs("Renewal Date", "renewal date");
    TargetRenewalDate();
  }

  /** The substring tests the chain applies to "dept", part 1. */
  lemma WordsDept1()
    ensures !Contains("dept", "date")
    ensures !Contains("dept", "purchase")
    ensures !Contains("dept", "tool")
  {
    NotContainsByChar("dept", "date", 'a');
    NotContainsByChar("dept", "purchase", 'u');
    NotContainsByChar("dept", "tool", 'o');
  }

  /** The substring tests the chain applies to "dept", part 2. */
  lemma WordsDept2()
    ensures !Contains("dept", "service")
    ensures !Contains("dept", "use")
    ensures !Contains("dept", "department")
  {
    NotContainsByChar("dept", "service", 's');
    NotContainsByChar("dept", "use", 'u');
    NotContainsByChar("dept", "department", 'a');
  }

  /** The substring tests the chain applies to "dept", part 3. */
  lemma WordsDept3()
    ensures !Contains("dept", "amount")
    ensures !Contains("dept", "company")
    ensures !Contains("dept", "status")
  {
    NotContainsByChar("dept", "amount", 'a');
    NotContainsByChar("dept", "company", 'c');
    NotContainsByChar("dept", "status", 's');
  }

  /** The substring tests the chain applies to "dept", part 4. */
  lemma WordsDept4()
    ensures !Contains("dept", "cycle")
    ensures !Contains("dept", "renew")
    ensures !Contains("dept", "receipt")
  {
    NotContainsByChar("dept", "cycle", 'c');
    NotContainsByChar("dept", "renew", 'r');
    NotContainsByChar("dept", "receipt", 'r');
  }

  /** The substring tests the chain applies to "dept", part 5. */
  lemma WordsDept5()
    ensures !Contains("dept", "desc")
  {
    NotContainsByChar("dept", "desc", 's');
  }

  /** An abbreviation the chain does not know keeps its name. */
  lemma TargetDept()
    ensures Target("dept", "Dept") == "Dept"
  {
    WordsDept1();
    WordsDept2();
    WordsDept3();
    WordsDept4();
    WordsDept5();
  }

  lemma ExampleDept()
    ensures Classify("Dept") == "Dept"
  {
    LowerIs("Dept", "dept");
    TargetDept();
  }

  /** The substring tests the chain applies to "amt (usd)", part 1. */
  lemma WordsAmt1()
    ensures !Contains("amt (usd)", "date")
    ensures !Contains("amt (usd)", "purchase")
    ensures !Contains("amt (usd)", "tool")
  {
    NotContainsByChar("amt (usd)", "date", 'e');
    NotContainsByChar("amt (usd)", "purchase", 'p');
    NotContainsByChar("amt (usd)", "tool", 'o');
  }

  /** The substring tests the chain applies to "amt (usd)", part 2. */
  lemma WordsAmt2()
    ensures !Contains("amt (usd)", "service")
    ensures !Contains("amt (usd)", "use")
    ensures !Contains("amt (usd)", "department")
  {
    NotContainsByChar("amt (usd)", "service", 'e');
    NotContainsByChar("amt (usd)", "use", 'e');
    NotContainsByChar("amt (usd)", "department", 'e');
  }

  /** The substring tests the chain applies to "amt (usd)", part 3. */
  lemma WordsAmt3()
    ensures !Contains("amt (usd)", "amount")
    ensures !Contains("amt (usd)", "company")
    ensures !Contains("amt (usd)", "status")
  {
    NotContainsByChar("amt (usd)", "amount", 'o');
    NotContainsByChar("amt (usd)", "company", 'c');
    NotContainsByHead("amt (usd)", "status");
  }

  /** The substring tests the chain applies to "amt (usd)", part 4. */
  lemma WordsAmt4()
    ensures !Contains("amt (usd)", "cycle")
    ensures !Contains("amt (usd)", "renew")
    ensures !Contains("amt (usd)", "receipt")
  {
    NotContainsByChar("amt (usd)", "cycle", 'c');
    NotContainsByChar("amt (usd)", "renew", 'r');
    NotContainsByChar("amt (usd)", "receipt", 'r');
  }

  /** The substring tests the chain applies to "amt (usd)", part 5. */
  lemma WordsAmt5()
    ensures !Contains("amt (usd)", "desc")
  {
    NotContainsByChar("amt (usd)", "desc", 'e');
  }

  lemma TargetAmt()
    ensures Target("amt (usd)", "Amt (USD)") == "Amt (USD)"
  {
    WordsAmt1();
    WordsAmt2();
    WordsAmt3();
    WordsAmt4();
    WordsAmt5();
  }

  lemma ExampleAmt()
    ensures Classify("Amt (USD)") == "Amt (USD)"
  {
    LowerIs("Amt (USD)", "amt (usd)");
    TargetAmt();
  }

  // ---- The loop that builds `col_map` ----

  /**
   * The `for c in df.columns` loop of `read_sheet`: one `col_map` entry per
   * column header, naming the column it is renamed to.
   */
  method MapColumns(columns: seq<string>) returns (colMap: map<string, string>)
    ensures colMap.Keys == set c | c in columns
    ensures forall c :: c in colMap ==> colMap[c] == Classify(c)
  {
    colMap := map[];
    var k := 0;
    while k < |columns|
      invariant 0 <= k <= |columns|
      invariant colMap.Keys == set c | c in columns[..k]
      invariant forall c :: c in colMap ==> colMap[c] == Classify(c)
    {
      var c := columns[k];
      var lc := Lower(c);
      colMap := colMap[c := Target(lc, c)];
      assert columns[..k + 1] == columns[..k] + [c];
      k := k + 1;
    }
    assert columns[..k] == columns;
  }
}
