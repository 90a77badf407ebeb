/** Prefill accounting of the per-backend prefix-cache stubs (scripts/affinity-replay.ts). */
module PrefixCache {
  import opened MapSums

  /** A request that a backend served: the backend and the prompt length. */
  datatype Served = Served(backend: string, prompt: nat)

  const WARM := "ollama"

  /** The last prompt each backend holds. */
  function Held(s: seq<Served>): map<string, nat> {
    if s == [] then map[] else Held(s[..|s| - 1])[s[|s| - 1].backend := s[|s| - 1].prompt]
  }

  function HeldBy(s: seq<Served>, backend: string): nat {
    if backend in Held(s) then Held(s)[backend] else 0
  }

  function Prefill(s: seq<Served>): nat {
    if s == [] then 0
    else
      var r, before := s[|s| - 1], s[..|s| - 1];
      var held := HeldBy(before, r.backend);
      Prefill(before) + if r.prompt > held then r.prompt - held else 0
  }

  class Stubs {
    var failLeft: nat
    var prefill: nat
    var requests: nat
    var cache: map<string, nat>
    ghost var served: seq<Served>

    ghost predicate Valid() reads this {
      cache == Held(served) && prefill == Prefill(served)
    }

    constructor ()
      ensures Valid() && served == [] && requests == 0 && failLeft == 0
    {
      failLeft, prefill, requests, cache, served := 0, 0, 0, map[], [];
    }

    /** One request: a 5xx while the warm backend's burst lasts, otherwise prefill what is not cached. */
    method Request(name: string, prompt: nat) returns (ok: bool)
      requires Valid()
      modifies this
      ensures Valid() && requests == old(requests) + 1
      ensures ok <==> !(name == WARM && old(failLeft) > 0)
      ensures served == if ok then old(served) + [Served(name, prompt)] else old(served)
      ensures failLeft == if ok then old(failLeft) else old(failLeft) - 1
    {
      requests := requests + 1;
      if name == WARM && failLeft > 0 {
        failLeft := failLeft - 1;
        return false;
      }
      var held := if name in cache then cache[name] else 0;
      prefill := prefill + if prompt > held then prompt - held else 0;
      cache := cache[name := prompt];
      served := served + [Served(name, prompt)];
      assert served[..|served| - 1] == old(served);
      ok := true;
    }
  }

  // --- accounting ----------------------------------------------------------

  function Tokens(): nat -> int { (n: nat) => n }

  /** No backend sees its prompt shrink. */
  ghost predicate GrowsPerBackend(s: seq<Served>) {
    forall i, j :: 0 <= i < j < |s| && s[i].backend == s[j].backend ==> s[i].prompt <= s[j].prompt
  }

  lemma {:induction false} HeldIsLast(s: seq<Served>, backend: string)
    ensures backend in Held(s) <==> exists i :: 0 <= i < |s| && s[i].backend == backend
    ensures backend in Held(s) ==>
      exists i :: 0 <= i < |s| && s[i] == Served(backend, Held(s)[backend])
        && forall j :: i < j < |s| ==> s[j].backend != backend
  {
    if s != [] {
      var n := |s| - 1;
      HeldIsLast(s[..n], backend);
      if s[n].backend != backend && backend in Held(s[..n]) {
        var i :| 0 <= i < n && s[..n][i] == Served(backend, Held(s[..n])[backend])
          && forall j :: i < j < n ==> s[..n][j].backend != backend;
        assert s[i] == s[..n][i];
        forall j | i < j < |s|
          ensures s[j].backend != backend
        {
          assert j < n ==> s[j] == s[..n][j];
        }
      }
    }
  }

  lemma GrowsStep(s: seq<Served>)
    requires s != []
    ensures GrowsPerBackend(s) <==>
            GrowsPerBackend(s[..|s| - 1]) && HeldBy(s[..|s| - 1], s[|s| - 1].backend) <= s[|s| - 1].prompt
  {
    var n := |s| - 1;
    var before, b := s[..n], s[n].backend;
    assert forall i :: 0 <= i < n ==> before[i] == s[i];
    HeldIsLast(before, b);
    hide Held;
    if b in Held(before) {
      var i :| 0 <= i < n && before[i] == Served(b, Held(before)[b])
        && forall j :: i < j < n ==> before[j].backend != b;
      assert s[i].backend == s[n].backend;
    }
  }

  /**
   * Total prefill is at least the sum of each backend's last prompt, for any routing of any prompts, and
   * equals it exactly when no backend's prompts ever shrink.
   */
  lemma {:induction false} PrefillIsSumOfLast(s: seq<Served>)
    ensures Prefill(s) >= Total(Held(s), Tokens())
    ensures Prefill(s) == Total(Held(s), Tokens()) <==> GrowsPerBackend(s)
  {
    if s != [] {
      var n := |s| - 1;
      PrefillIsSumOfLast(s[..n]);
      TotalUpdate(Held(s[..n]), s[n].backend, s[n].prompt, Tokens());
      GrowsStep(s);
    }
  }

  /**
   * With nondecreasing prompts total prefill is at least the final prompt, and equals it exactly when no
   * other backend holds a nonzero prompt.
   */
  lemma FinalPromptBound(s: seq<Served>)
    requires s != [] && forall i, j :: 0 <= i < j < |s| ==> s[i].prompt <= s[j].prompt
    ensures Prefill(s) == Total(Held(s), Tokens())
    ensures Prefill(s) >= s[|s| - 1].prompt
    ensures Prefill(s) == s[|s| - 1].prompt
            <==> forall b :: b in Held(s) && b != s[|s| - 1].backend ==> Held(s)[b] == 0
  {
    var last := s[|s| - 1];
    PrefillIsSumOfLast(s);
    TotalWithout(Held(s), last.backend, Tokens());
    TotalSign(Held(s) - {last.backend}, Tokens());
    var others := Held(s) - {last.backend};
    assert forall b :: b in Held(s) && b != last.backend ==> b in others && others[b] == Held(s)[b];
  }

  /** The prompt of turn n, when every turn adds `step`. */
  function PromptAt(n: nat, step: nat): nat { n * step }

  /** A session of n turns whose prompt grows by `step`, on the main backend except at turn k. */
  function Session(n: nat, k: nat, step: nat, main: string, other: string): seq<Served> {
    if n == 0 then []
    else Session(n - 1, k, step, main, other) + [Served(if n == k then other else main, PromptAt(n, step))]
  }

  /** One more request: its backend now holds its prompt, and what it did not hold was prefilled. */
  lemma OneServed(s: seq<Served>, r: Served)
    ensures forall b :: HeldBy(s + [r], b) == if b == r.backend then r.prompt else HeldBy(s, b)
    ensures
      var held := HeldBy(s, r.backend);
      Prefill(s + [r]) == Prefill(s) + if r.prompt > held then r.prompt - held else 0
  {
    assert (s + [r])[..|s|] == s;
  }

  lemma OneTurn(n: nat, step: nat)
    requires n > 0
    ensures PromptAt(n, step) == PromptAt(n - 1, step) + step
  {
  }

  lemma {:induction false} SessionPrefill(n: nat, k: nat, step: nat, main: string, other: string)
    requires k > 0 && main != other
    ensures
      var s := Session(n, k, step, main, other);
      && HeldBy(s, other) == (if n < k then 0 else PromptAt(k, step))
      && HeldBy(s, main) == PromptAt(if n == k then k - 1 else n, step)
      && Prefill(s) == (if n < k then PromptAt(n, step)
                        else PromptAt(k, step) + PromptAt(if n == k then k - 1 else n, step))
  {
    hide *;
    NextTurn(n, k, step, main, other);
    if n > 0 {
      var before := Session(n - 1, k, step, main, other);
      SessionPrefill(n - 1, k, step, main, other);
      OneServed(before, Served(if n == k then other else main, PromptAt(n, step)));
      OneTurn(n, step);
      OneTurn(k, step);
    }
  }

  lemma NextTurn(n: nat, k: nat, step: nat, main: string, other: string)
    ensures
      var s := Session(n, k, step, main, other);
      if n == 0 then HeldBy(s, main) == HeldBy(s, other) == Prefill(s) == PromptAt(0, step) == 0
      else s == Session(n - 1, k, step, main, other) + [Served(if n == k then other else main, PromptAt(n, step))]
  {
  }

  /** One excursion at turn k that returns to the main backend costs exactly k prompt steps more than none. */
  lemma ExcursionCost(turns: nat, k: nat, step: nat, main: string, other: string)
    requires 0 < k < turns && main != other
    ensures Prefill(Session(turns, k, step, main, other))
            == Prefill(Session(turns, turns + 1, step, main, other)) + k * step
  {
    SessionPrefill(turns, k, step, main, other);
    SessionPrefill(turns, turns + 1, step, main, other);
  }
}
