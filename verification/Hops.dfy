// Traceroute hop lists and their normal form (backend/app/services/diagnostics.py).

module Hops {
  import opened Options

  type Address = string

  /** One traceroute hop. A hop that did not answer has no address. */
  datatype Hop = Hop(number: Option<int>, ip: Option<Address>, rtt: Option<real>)

  predicate Silent(h: Hop) { h.ip.None? }

  /** A silent hop keeps only its number when it is written to the clean list. */
  function Anonymized(h: Hop): Hop { Hop(h.number, None, None) }

  // ------------------------------------------------------------------
  // The specification, as functions of the raw list
  // ------------------------------------------------------------------

  /** The list without the silent hops at its end. */
  function Stripped(hops: seq<Hop>): seq<Hop> {
    if hops != [] && Silent(hops[|hops| - 1]) then Stripped(hops[..|hops| - 1]) else hops
  }

  /** The list with every run of silent hops reduced to its first, anonymized, hop. */
  function Collapsed(hops: seq<Hop>): seq<Hop> {
    if hops == [] then []
    else
      var init := hops[..|hops| - 1];
      var last := hops[|hops| - 1];
      if !Silent(last) then Collapsed(init) + [last]
      else if init != [] && Silent(init[|init| - 1]) then Collapsed(init)
      else Collapsed(init) + [Anonymized(last)]
  }

  /** The number given to a target hop that has to be appended. */
  function NextNumber(clean: seq<Hop>): int {
    if clean == [] then 1
    else
      var last := clean[|clean| - 1];
      (if last.number.Some? && last.number.value != 0 then last.number.value else |clean|) + 1
  }

  /** The list ended by a hop that answers from the target. */
  function Terminated(clean: seq<Hop>, target: Address): seq<Hop> {
    if clean != [] && clean[|clean| - 1].ip == Some(target) then clean
    else clean + [Hop(Some(NextNumber(clean)), Some(target), None)]
  }

  /** An empty target address counts as no target. */
  predicate HasTarget(target: Option<Address>) { target.Some? && target.value != "" }

  function Sanitized(hops: seq<Hop>, target: Option<Address>): seq<Hop> {
    if HasTarget(target) then Terminated(Collapsed(hops), target.value)
    else Collapsed(Stripped(hops))
  }

  /** The route of an endpoint, as the topology graph reads it: no target address. */
  function Route(hops: seq<Hop>): seq<Hop> { Sanitized(hops, None) }

  // ------------------------------------------------------------------
  // The loop
  // ------------------------------------------------------------------

  method Sanitize(hops: seq<Hop>, target: Option<Address>) returns (clean: seq<Hop>)
    ensures clean == Sanitized(hops, target)
  {
    if hops == [] {
      if HasTarget(target) {
        return [Hop(Some(1), target, None)];
      }
      return [];
    }
    var kept := hops;
    if !HasTarget(target) {
      while kept != [] && Silent(kept[|kept| - 1])
        invariant Stripped(kept) == Stripped(hops)
        decreases |kept|
      {
        kept := kept[..|kept| - 1];
      }
    }
    clean := [];
    var prevWasNull := false;
    for i := 0 to |kept|
      invariant clean == Collapsed(kept[..i])
      invariant prevWasNull == (i > 0 && Silent(kept[i - 1]))
    {
      assert kept[..i + 1][..i] == kept[..i];
      var h := kept[i];
      if Silent(h) {
        if !prevWasNull {
          clean := clean + [Anonymized(h)];
          prevWasNull := true;
        }
      } else {
        clean := clean + [h];
        prevWasNull := false;
      }
    }
    assert kept[..|kept|] == kept;
    if HasTarget(target) {
      if clean == [] || clean[|clean| - 1].ip != target {
        clean := clean + [Hop(Some(NextNumber(clean)), target, None)];
      }
    }
  }

  // ------------------------------------------------------------------
  // What the normal form is
  // ------------------------------------------------------------------

  /** The answering hops, in order. */
  function Answers(hops: seq<Hop>): seq<Hop> {
    if hops == [] then []
    else
      var init := hops[..|hops| - 1];
      var last := hops[|hops| - 1];
      if Silent(last) then Answers(init) else Answers(init) + [last]
  }

  /** No two neighbours are both silent, and a silent hop carries nothing but its number. */
  predicate NoSilentPair(hops: seq<Hop>) {
    && (forall i :: 0 <= i < |hops| - 1 ==> !(Silent(hops[i]) && Silent(hops[i + 1])))
    && (forall i :: 0 <= i < |hops| && Silent(hops[i]) ==> hops[i] == Anonymized(hops[i]))
  }

  predicate EndsAnswering(hops: seq<Hop>) {
    hops == [] || !Silent(hops[|hops| - 1])
  }

  lemma {:induction false} StrippedShape(hops: seq<Hop>)
    ensures EndsAnswering(Stripped(hops))
    ensures Answers(Stripped(hops)) == Answers(hops)
  {
    if hops != [] && Silent(hops[|hops| - 1]) {
      StrippedShape(hops[..|hops| - 1]);
    }
  }

  lemma {:induction false} CollapsedShape(hops: seq<Hop>)
    ensures NoSilentPair(Collapsed(hops))
    ensures Answers(Collapsed(hops)) == Answers(hops)
    ensures Collapsed(hops) == [] <==> hops == []
    ensures hops != [] ==> Collapsed(hops)[|Collapsed(hops)| - 1].ip == hops[|hops| - 1].ip
  {
    if hops != [] {
      var init := hops[..|hops| - 1];
      CollapsedShape(init);
      var c := Collapsed(hops);
      if c != Collapsed(init) {
        assert c[..|c| - 1] == Collapsed(init);
      }
    }
  }

  /** Every hop of the collapsed list is one of the list: an answering hop as it is, a silent one as the first
      of its run, with its number and nothing else. */
  lemma {:induction false} CollapsedFrom(hops: seq<Hop>, i: nat) returns (j: nat)
    requires i < |Collapsed(hops)|
    ensures j < |hops|
    ensures var h, c := hops[j], Collapsed(hops)[i];
            if h.ip.Some? then c == h
            else c == Hop(h.number, None, None) && (j > 0 ==> hops[j - 1].ip.Some?)
    decreases |hops|
  {
    var n := |hops| - 1;
    if i < |Collapsed(hops[..n])| {
      j := CollapsedFrom(hops[..n], i);
    } else {
      j := n;
    }
  }

  /** A target that does not end the list is appended, numbered after the last hop, or by the length of the
      list when that hop has no number. */
  lemma TargetAppended(hops: seq<Hop>, target: Address)
    requires target != ""
    ensures var clean, all := Collapsed(hops), Sanitized(hops, Some(target));
            if clean == [] then all == [Hop(Some(1), Some(target), None)]
            else
              var last := clean[|clean| - 1];
              all ==
                if last.ip == Some(target) then clean
                else clean + [Hop(Some((if last.number.Some? && last.number.value != 0 then last.number.value
                                        else |clean|) + 1), Some(target), None)]
  {
  }

  /** Nothing changes in a list that is already normal. */
  lemma {:induction false} CollapsedFixesNormal(hops: seq<Hop>)
    requires NoSilentPair(hops)
    ensures Collapsed(hops) == hops
  {
    if hops != [] {
      var init := hops[..|hops| - 1];
      assert NoSilentPair(init) by {
        forall i | 0 <= i < |init| - 1 ensures !(Silent(init[i]) && Silent(init[i + 1])) {
          assert init[i] == hops[i] && init[i + 1] == hops[i + 1];
        }
      }
      CollapsedFixesNormal(init);
      assert Silent(hops[|hops| - 1]) && init != [] ==> !Silent(hops[|hops| - 2]);
      assert hops == init + [hops[|hops| - 1]];
    }
  }

  /** The normal form: no silent run longer than one, the same answers in the same order
      (up to the appended target), and an end that answers. */
  lemma SanitizedIsNormal(hops: seq<Hop>, target: Option<Address>)
    ensures NoSilentPair(Sanitized(hops, target))
    ensures EndsAnswering(Sanitized(hops, target))
    ensures !HasTarget(target) ==> Answers(Sanitized(hops, target)) == Answers(hops)
    ensures HasTarget(target) ==>
              && Sanitized(hops, target) != []
              && Sanitized(hops, target)[|Sanitized(hops, target)| - 1].ip == target
              && Answers(hops) <= Answers(Sanitized(hops, target))
              && |Answers(Sanitized(hops, target))| <= |Answers(hops)| + 1
  {
    if HasTarget(target) {
      TerminatedShape(hops, target.value);
    } else {
      hide Stripped, Collapsed;
      StrippedShape(hops);
      CollapsedShape(Stripped(hops));
    }
  }

  lemma TerminatedShape(hops: seq<Hop>, target: Address)
    ensures var t := Terminated(Collapsed(hops), target);
            && NoSilentPair(t) && t != [] && t[|t| - 1].ip == Some(target)
            && Answers(hops) <= Answers(t) && |Answers(t)| <= |Answers(hops)| + 1
  {
    hide Collapsed;
    CollapsedShape(hops);
    var c := Collapsed(hops);
    var t := Terminated(c, target);
    if t != c {
      assert t[..|t| - 1] == c;
    }
  }

  /** Sanitizing twice is sanitizing once. */
  lemma SanitizedIdempotent(hops: seq<Hop>, target: Option<Address>)
    ensures Sanitized(Sanitized(hops, target), target) == Sanitized(hops, target)
  {
    SanitizedIsNormal(hops, target);
    CollapsedFixesNormal(Sanitized(hops, target));
  }
}
