/** The provider loop of chat: which providers are tried, in what order, and whose answer is returned. */
module ProviderFallback {

  /** What asking one provider comes to, retries included. */
  datatype Call<+T> = CannotConstruct | CallFails | Answers(response: T)

  /** What the whole loop comes to. A provider that cannot be constructed aborts the request. */
  datatype Ran<+T> = Answered(provider: string, response: T) | AllFailed | Aborted(provider: string)

  /** allowed, first occurrences only, without the names in seen. */
  function Remaining(seen: seq<string>, allowed: seq<string>): (order: seq<string>)
    decreases |allowed|
  {
    if allowed == [] then []
    else if allowed[0] in seen then Remaining(seen, allowed[1..])
    else [allowed[0]] + Remaining(seen + [allowed[0]], allowed[1..])
  }

  ghost predicate Distinct(order: seq<string>)
  {
    forall i, j :: 0 <= i < j < |order| ==> order[i] != order[j]
  }

  lemma {:induction false} RemainingNames(seen: seq<string>, allowed: seq<string>, name: string)
    ensures name in Remaining(seen, allowed) <==> name in allowed && name !in seen
    decreases |allowed|
  {
    if allowed != [] {
      var head := allowed[0];
      if head in seen {
        RemainingNames(seen, allowed[1..], name);
      } else {
        RemainingNames(seen + [head], allowed[1..], name);
      }
    }
  }

  lemma {:induction false} RemainingDistinct(seen: seq<string>, allowed: seq<string>)
    ensures Distinct(Remaining(seen, allowed))
    decreases |allowed|
  {
    if allowed != [] {
      var head := allowed[0];
      if head in seen {
        RemainingDistinct(seen, allowed[1..]);
      } else {
        RemainingDistinct(seen + [head], allowed[1..]);
        RemainingNames(seen + [head], allowed[1..], head);
      }
    }
  }

  function FallbackOrder(provider: string, allowed: seq<string>, enabled: bool): seq<string>
  {
    [provider] + if enabled then Remaining([provider], allowed) else []
  }

  /** The requested provider first, nobody twice, and with fallback on exactly the allowed providers. */
  lemma FallbackOrderIsComplete(provider: string, allowed: seq<string>, enabled: bool)
    requires provider in allowed
    ensures var order := FallbackOrder(provider, allowed, enabled);
      && order[0] == provider && Distinct(order)
      && forall name :: name in order <==> if enabled then name in allowed else name == provider
  {
    RemainingDistinct([provider], allowed);
    forall name
      ensures name in FallbackOrder(provider, allowed, enabled) <==> if enabled then name in allowed else name == provider
    {
      RemainingNames([provider], allowed, name);
    }
    RemainingNames([provider], allowed, provider);
  }

  lemma {:induction false} RemainingExtend(seen: seq<string>, done: seq<string>, name: string)
    ensures Remaining(seen, done + [name])
         == Remaining(seen, done) + if name in seen || name in done then [] else [name]
    decreases |done|
  {
    if done == [] {
      assert [name][1..] == [];
      assert done + [name] == [name];
    } else {
      var head := done[0];
      assert (done + [name])[1..] == done[1..] + [name];
      if head in seen {
        RemainingExtend(seen, done[1..], name);
      } else {
        RemainingExtend(seen + [head], done[1..], name);
      }
    }
  }

  method BuildFallbackOrder(provider: string, allowed: seq<string>, enabled: bool) returns (order: seq<string>)
    ensures order == FallbackOrder(provider, allowed, enabled)
  {
    order := [provider];
    if enabled {
      for i := 0 to |allowed|
        invariant order == [provider] + Remaining([provider], allowed[..i])
      {
        var p := allowed[i];
        RemainingExtend([provider], allowed[..i], p);
        RemainingNames([provider], allowed[..i], p);
        assert allowed[..i] + [p] == allowed[..i + 1];
        if p !in order {
          order := order + [p];
        }
      }
      assert allowed[..|allowed|] == allowed;
    }
  }

  /** The number of providers at the front that were constructed and failed. */
  function FailedPrefix<T>(order: seq<string>, calls: string -> Call<T>): (n: nat)
    ensures n <= |order|
    ensures forall i :: 0 <= i < n ==> calls(order[i]).CallFails?
    ensures n < |order| ==> !calls(order[n]).CallFails?
  {
    if order == [] || !calls(order[0]).CallFails? then 0
    else 1 + FailedPrefix(order[1..], calls)
  }

  function Outcome<T>(order: seq<string>, calls: string -> Call<T>): Ran<T>
  {
    var n := FailedPrefix(order, calls);
    if n == |order| then AllFailed
    else
      match calls(order[n])
      case Answers(response) => Answered(order[n], response)
      case _ => Aborted(order[n])
  }

  /** The answer is that of the first provider that does not fail; every provider before it failed and is
      recorded once, in order; a construction error there ends the request without trying the rest. */
  method AskProviders<T>(order: seq<string>, calls: string -> Call<T>) returns (ran: Ran<T>, errors: seq<string>)
    ensures ran == Outcome(order, calls)
    ensures errors == order[..FailedPrefix(order, calls)]
  {
    errors := [];
    ghost var n := FailedPrefix(order, calls);
    for i := 0 to |order|
      invariant i <= n
      invariant errors == order[..i]
    {
      var p := order[i];
      match calls(p)
      case CannotConstruct =>
        return Aborted(p), errors;
      case Answers(response) =>
        return Answered(p, response), errors;
      case CallFails =>
        errors := errors + [p];
    }
    return AllFailed, errors;
  }

  /** Provider i of the order answers, and every earlier one was constructed and failed. */
  predicate FirstToAnswer<T>(order: seq<string>, calls: string -> Call<T>, i: nat)
    requires i < |order|
  {
    calls(order[i]).Answers? && forall j :: 0 <= j < i ==> calls(order[j]).CallFails?
  }

  predicate SomeoneAnswers<T>(order: seq<string>, calls: string -> Call<T>)
  {
    exists i :: 0 <= i < |order| && FirstToAnswer(order, calls, i)
  }

  /** The loop ends with an answer exactly when some provider is the first to answer, and then with its answer. */
  lemma AnsweredExactly<T>(order: seq<string>, calls: string -> Call<T>)
    ensures var ran := Outcome(order, calls);
      && (ran.Answered? <==> SomeoneAnswers(order, calls))
      && (forall i :: 0 <= i < |order| && FirstToAnswer(order, calls, i) ==>
            ran == Answered(order[i], calls(order[i]).response) && FailedPrefix(order, calls) == i)
      && (ran.AllFailed? <==> forall i :: 0 <= i < |order| ==> calls(order[i]).CallFails?)
      && (forall i :: 0 <= i < |order| && calls(order[i]).CannotConstruct? ==>
            (forall j :: 0 <= j < i ==> calls(order[j]).CallFails?) ==> ran == Aborted(order[i]))
  {
    var n := FailedPrefix(order, calls);
    forall i | 0 <= i < |order| && !calls(order[i]).CallFails? && (forall j :: 0 <= j < i ==> calls(order[j]).CallFails?)
      ensures n == i
    {
    }
    if n < |order| && calls(order[n]).Answers? {
      assert FirstToAnswer(order, calls, n);
    }
  }

  /** The first place of a name in a list. */
  function Place(allowed: seq<string>, name: string): (k: nat)
    ensures k <= |allowed| && name !in allowed[..k]
    ensures k < |allowed| ==> allowed[k] == name
  {
    if allowed == [] || allowed[0] == name then 0 else 1 + Place(allowed[1..], name)
  }

  lemma {:induction false} RemainingKeepsOrder(seen: seq<string>, allowed: seq<string>, i: nat, j: nat)
    requires i < j < |Remaining(seen, allowed)|
    ensures var r := Remaining(seen, allowed); Place(allowed, r[i]) < Place(allowed, r[j])
    decreases |allowed|
  {
    var r, head := Remaining(seen, allowed), allowed[0];
    if head in seen {
      RemainingKeepsOrder(seen, allowed[1..], i, j);
      RemainingNames(seen, allowed, r[i]);
      RemainingNames(seen, allowed, r[j]);
      assert r[i] in r && r[j] in r;
    } else {
      var rest := Remaining(seen + [head], allowed[1..]);
      RemainingDistinct(seen, allowed);
      assert r == [head] + rest && r[j] == rest[j - 1] && r[0] != r[j];
      if i > 0 {
        assert r[i] == rest[i - 1] && r[0] != r[i];
        RemainingKeepsOrder(seen + [head], allowed[1..], i - 1, j - 1);
      }
    }
  }

  /** Behind the requested provider the others follow in the order in which the workspace allows them. */
  lemma FallbackKeepsOrder(provider: string, allowed: seq<string>, i: nat, j: nat)
    requires 1 <= i < j < |FallbackOrder(provider, allowed, true)|
    ensures var order := FallbackOrder(provider, allowed, true); Place(allowed, order[i]) < Place(allowed, order[j])
  {
    RemainingKeepsOrder([provider], allowed, i - 1, j - 1);
  }

  /** Without construction errors a request fails only after every provider in the order has failed,
      and otherwise the first provider that answers is the one used. */
  lemma FirstAnswerWins<T>(order: seq<string>, calls: string -> Call<T>, i: nat)
    requires forall name :: name in order ==> !calls(name).CannotConstruct?
    ensures Outcome(order, calls).AllFailed? <==> forall name :: name in order ==> calls(name).CallFails?
    ensures i < |order| && calls(order[i]).Answers? && (forall j :: 0 <= j < i ==> calls(order[j]).CallFails?)
        ==> Outcome(order, calls) == Answered(order[i], calls(order[i]).response)
    ensures !Outcome(order, calls).Aborted?
  {
    var n := FailedPrefix(order, calls);
    if n < |order| {
      assert order[n] in order;
    } else {
      forall name | name in order ensures calls(name).CallFails? {
        var k :| 0 <= k < |order| && order[k] == name;
      }
    }
  }
}
