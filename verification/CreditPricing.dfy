/** Cost estimates of the AI gateway, in exact dollars. */
module CreditPricing {
  import opened Text

  datatype Rates = Rates(input: real, output: real)

  predicate Mentions(model: string, families: seq<string>)
  {
    exists f | f in families :: Contains(model, f)
  }

  datatype Family = Flagship | Premium | Gemini | Local | Other

  /** The first matching family wins. */
  function FamilyOf(model: string): Family
  {
    var m := Lower(model);
    if Mentions(m, ["gpt-4o", "claude-3-5", "claude-sonnet"]) then Flagship
    else if Mentions(m, ["gpt-4", "claude-3-opus"]) then Premium
    else if Mentions(m, ["gemini-1.5-pro", "gemini-2"]) then Gemini
    else if Mentions(m, ["ollama", "llama", "mistral"]) then Local
    else Other
  }

  /** Dollars per thousand tokens. */
  function PriceList(family: Family): (r: Rates)
    ensures r.input >= 0.0 && (r.output == 0.0 || r.output >= 0.0006)
  {
    match family
    case Flagship => Rates(0.0025, 0.01)
    case Premium => Rates(0.01, 0.03)
    case Gemini => Rates(0.00125, 0.005)
    case Local => Rates(0.0, 0.0)
    case Other => Rates(0.00015, 0.0006)
  }

  function RatesOf(model: string): (r: Rates)
    ensures r.input >= 0.0 && (r.output == 0.0 || r.output >= 0.0006)
  {
    PriceList(FamilyOf(model))
  }

  function Charge(rates: Rates, inputTokens: real, outputTokens: real): real
  {
    inputTokens / 1000.0 * rates.input + outputTokens / 1000.0 * rates.output
  }

  function EstimatedCost(model: string, inputTokens: real, outputTokens: real): real
  {
    Charge(RatesOf(model), inputTokens, outputTokens)
  }

  function InputAllowance(promptLength: nat): real
  {
    if promptLength as real / 4.0 >= 10.0 then promptLength as real / 4.0 else 10.0
  }

  function UpfrontCost(model: string, promptLength: nat, maxTokens: int): real
  {
    EstimatedCost(model, InputAllowance(promptLength), maxTokens as real)
  }

  /** Which names belong to which family. */
  lemma FamiliesByName(model: string, m: string)
    requires m == Lower(model)
    ensures FamilyOf(model) == Flagship
            <==> Contains(m, "gpt-4o") || Contains(m, "claude-3-5") || Contains(m, "claude-sonnet")
    ensures FamilyOf(model) == Premium
            <==> FamilyOf(model) != Flagship && (Contains(m, "gpt-4") || Contains(m, "claude-3-opus"))
  {
    var flagships, premium := ["gpt-4o", "claude-3-5", "claude-sonnet"], ["gpt-4", "claude-3-opus"];
    assert flagships[0] == "gpt-4o" && flagships[1] == "claude-3-5" && flagships[2] == "claude-sonnet";
    assert premium[0] == "gpt-4" && premium[1] == "claude-3-opus";
  }

  lemma CheapFamiliesByName(model: string, m: string)
    requires m == Lower(model) && FamilyOf(model) !in {Flagship, Premium}
    ensures FamilyOf(model) == Gemini <==> Contains(m, "gemini-1.5-pro") || Contains(m, "gemini-2")
    ensures FamilyOf(model) == Local
            <==> FamilyOf(model) != Gemini && (Contains(m, "ollama") || Contains(m, "llama") || Contains(m, "mistral"))
  {
    var gemini, local := ["gemini-1.5-pro", "gemini-2"], ["ollama", "llama", "mistral"];
    assert gemini[0] == "gemini-1.5-pro" && gemini[1] == "gemini-2";
    assert local[0] == "ollama" && local[1] == "llama" && local[2] == "mistral";
  }

  lemma AllowsAQuarter(r: Rates, promptLength: nat, outputTokens: real)
    requires r.input >= 0.0
    ensures var quarter, c := promptLength as real / 4.0, Charge(r, InputAllowance(promptLength), outputTokens);
      && c >= Charge(r, quarter, outputTokens) && c >= Charge(r, 10.0, outputTokens)
      && c == Charge(r, if promptLength >= 40 then quarter else 10.0, outputTokens)
  {
    InputMonotone(r.input, promptLength as real / 4.0, InputAllowance(promptLength));
    InputMonotone(r.input, 10.0, InputAllowance(promptLength));
  }

  lemma InputMonotone(rate: real, i: real, j: real)
    requires rate >= 0.0 && i <= j
    ensures i / 1000.0 * rate <= j / 1000.0 * rate
  {
  }

  /** Every prompt is quoted at least a quarter of its characters as input tokens, and at least ten tokens: exactly the
      larger of the two. */
  lemma QuotesAQuarter(model: string, promptLength: nat, maxTokens: int)
    ensures var quarter, q := promptLength as real / 4.0, UpfrontCost(model, promptLength, maxTokens);
      && q >= EstimatedCost(model, quarter, maxTokens as real) && q >= EstimatedCost(model, 10.0, maxTokens as real)
      && q == EstimatedCost(model, if promptLength >= 40 then quarter else 10.0, maxTokens as real)
  {
    AllowsAQuarter(RatesOf(model), promptLength, maxTokens as real);
  }

  /** What i million input tokens and o million output tokens cost. */
  lemma PricesPerMillion(family: Family, i: real, o: real)
    ensures Charge(PriceList(family), 1000000.0 * i, 1000000.0 * o)
         == match family
            case Flagship => 2.5 * i + 10.0 * o
            case Premium => 10.0 * i + 30.0 * o
            case Gemini => 1.25 * i + 5.0 * o
            case Local => 0.0
            case Other => 0.15 * i + 0.6 * o
  {
  }

  predicate AtMost(a: Rates, b: Rates)
  {
    a.input <= b.input && a.output <= b.output
  }

  lemma ChargeMonotone(cheap: Rates, dear: Rates, i: real, j: real, o: real, p: real)
    requires 0.0 <= cheap.input && 0.0 <= cheap.output && AtMost(cheap, dear)
    requires 0.0 <= i <= j && 0.0 <= o <= p
    ensures 0.0 <= Charge(cheap, i, o) <= Charge(dear, j, p)
  {
  }

  /** Within the token allowances, a model priced no higher than the requested one never costs more
      than what was reserved. */
  lemma UpfrontCovers(requested: string, used: string, promptLength: nat, maxTokens: nat, inputTokens: nat, outputTokens: nat)
    requires AtMost(RatesOf(used), RatesOf(requested))
    requires inputTokens as real <= InputAllowance(promptLength) && outputTokens <= maxTokens
    ensures 0.0 <= EstimatedCost(used, inputTokens as real, outputTokens as real)
                <= UpfrontCost(requested, promptLength, maxTokens)
  {
    ChargeMonotone(RatesOf(used), RatesOf(requested), inputTokens as real, InputAllowance(promptLength),
                   outputTokens as real, maxTokens as real);
  }

  /** What a request that uses up its allowances costs. */
  function FullCharge(rates: Rates, promptLength: nat, maxTokens: nat): real
  {
    Charge(rates, InputAllowance(promptLength), maxTokens as real)
  }

  /** The allowances can be used up, so a price rise of either rate breaks the cover for some request. */
  lemma CoverNeedsTheRates(requested: Rates, used: Rates)
    requires used.input >= 0.0 && used.output >= 0.0 && requested.input >= 0.0 && requested.output >= 0.0
    ensures (forall p: nat, m: nat :: FullCharge(used, p, m) <= FullCharge(requested, p, m)) <==> AtMost(used, requested)
  {
    if AtMost(used, requested) {
      forall p: nat, m: nat ensures FullCharge(used, p, m) <= FullCharge(requested, p, m) {
        ChargeMonotone(used, requested, InputAllowance(p), InputAllowance(p), m as real, m as real);
      }
    } else if used.input > requested.input {
      assert FullCharge(used, 0, 0) > FullCharge(requested, 0, 0);
    } else {
      var m := LargeOutput(requested, used);
      assert FullCharge(used, 0, m) > FullCharge(requested, 0, m);
    }
  }

  lemma LargeOutput(requested: Rates, used: Rates) returns (m: nat)
    requires used.output > requested.output && requested.input >= used.input >= 0.0
    ensures FullCharge(used, 0, m) > FullCharge(requested, 0, m)
  {
    var gap := used.output - requested.output;
    var lead := 10.0 * (requested.input - used.input);
    m := (lead / gap).Floor + 1;
    assert m as real > lead / gap;
    assert m as real * gap > lead by {
      assert lead == lead / gap * gap;
    }
    assert m as real * used.output == m as real * requested.output + m as real * gap;
  }
}
