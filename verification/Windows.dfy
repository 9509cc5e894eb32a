/**
 Time windows over a history of instants: "at most `limit` events in every half-open window" and
 its equivalent for ordered histories, "any two events `limit` apart are a window apart".
 */
module Windows {
  type Time = int

  ghost predicate NonDecreasing(h: seq<Time>) {
    forall i, j | 0 <= i < j < |h| :: h[i] <= h[j]
  }

  /** Events in [lo, lo + width). */
  function CountIn(h: seq<Time>, lo: Time, width: Time): nat {
    if h == [] then 0
    else
      var last := h[|h| - 1];
      CountIn(h[..|h| - 1], lo, width) + (if lo <= last < lo + width then 1 else 0)
  }

  ghost predicate WindowBound(h: seq<Time>, limit: nat, width: Time) {
    forall lo: Time :: CountIn(h, lo, width) <= limit
  }

  ghost predicate Spaced(h: seq<Time>, limit: nat, width: Time) {
    forall i | 0 <= i && i + limit < |h| :: h[i] + width <= h[i + limit]
  }

  function Below(h: seq<Time>, t: Time): nat {
    if h == [] then 0 else Below(h[..|h| - 1], t) + (if h[|h| - 1] < t then 1 else 0)
  }

  lemma {:induction false} BelowIsCut(h: seq<Time>, t: Time)
    requires NonDecreasing(h)
    ensures Below(h, t) <= |h|
    ensures forall k | 0 <= k < |h| :: h[k] < t <==> k < Below(h, t)
  {
    if h != [] {
      BelowIsCut(h[..|h| - 1], t);
    }
  }

  lemma {:induction false} CountIsDifference(h: seq<Time>, lo: Time, width: Time)
    requires width >= 0
    ensures CountIn(h, lo, width) == Below(h, lo + width) - Below(h, lo)
  {
    if h != [] {
      CountIsDifference(h[..|h| - 1], lo, width);
    }
  }

  /** For an ordered history the two ways to state the bound are the same. */
  lemma SpacedIffWindowBound(h: seq<Time>, limit: nat, width: Time)
    requires NonDecreasing(h) && width > 0
    ensures Spaced(h, limit, width) <==> WindowBound(h, limit, width)
  {
    forall lo: Time | Spaced(h, limit, width)
      ensures CountIn(h, lo, width) <= limit
    {
      CountIsDifference(h, lo, width);
      BelowIsCut(h, lo);
      BelowIsCut(h, lo + width);
      var first := Below(h, lo);
      assert first + limit < |h| ==> h[first] + width <= h[first + limit];
    }
    forall i | WindowBound(h, limit, width) && 0 <= i && i + limit < |h|
      ensures h[i] + width <= h[i + limit]
    {
      assert CountIn(h, h[i], width) <= limit;
      CountIsDifference(h, h[i], width);
      BelowIsCut(h, h[i]);
      BelowIsCut(h, h[i] + width);
    }
  }

  // ---- one more event ----

  ghost predicate OldUntil(h: seq<Time>, cut: int, t: Time) {
    forall i | 0 <= i < cut && i < |h| :: h[i] <= t
  }

  /** A new event keeps the spacing exactly when the event `limit` places before it is a window old. */
  lemma SpacedGrowsIff(h: seq<Time>, now: Time, limit: nat, width: Time)
    requires Spaced(h, limit, width) && limit > 0
    ensures Spaced(h + [now], limit, width) <==> |h| < limit || h[|h| - limit] + width <= now
  {
    var grown := h + [now];
    if |h| >= limit {
      assert grown[|h| - limit + limit] == now && grown[|h| - limit] == h[|h| - limit];
    }
    forall i | 0 <= i && i + limit < |grown| && (|h| < limit || h[|h| - limit] + width <= now)
      ensures grown[i] + width <= grown[i + limit]
    {
      if i + limit < |h| {
        assert h[i] + width <= h[i + limit];
      }
    }
  }

}
