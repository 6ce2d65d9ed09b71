/** Views of an event trace used to state properties: the points clicked, in
    order, and how often an event occurs. */
module Traces {
  import opened Geometry
  import opened Recognition
  import opened Automaton

  /** The client points of all click attempts in `es`, in order. */
  function Clicks(es: seq<Event>): (ps: seq<Point>)
    ensures |ps| <= |es|
  {
    if es == [] then []
    else (if es[0].Click? then [es[0].target] else []) + Clicks(es[1..])
  }

  /** How many times `e` occurs in `es`. */
  function Count(es: seq<Event>, e: Event): (n: nat)
    ensures n <= |es|
    ensures n == 0 <==> e !in es
  {
    if es == [] then 0
    else (if es[0] == e then 1 else 0) + Count(es[1..], e)
  }

  /** `n` copies of the point `p`. */
  function Repeat(p: Point, n: nat): (ps: seq<Point>)
    ensures |ps| == n
    ensures forall k | 0 <= k < n :: ps[k] == p
  {
    if n == 0 then [] else [p] + Repeat(p, n - 1)
  }

  /** The centres of the regions with index in [from, to) that `keep` accepts,
      in index order. */
  function CentresWhere(lines: seq<Obs>, keep: Obs -> bool, from: nat, to: nat): seq<Point>
    requires from <= to <= |lines|
    decreases |lines| - from
  {
    if from == to then []
    else (if keep(lines[from]) then [QuadCenter(lines[from].quad)] else []) +
         CentresWhere(lines, keep, from + 1, to)
  }

  lemma {:induction false} ClicksAppend(a: seq<Event>, b: seq<Event>)
    ensures Clicks(a + b) == Clicks(a) + Clicks(b)
  {
    if a == [] {
      assert a + b == b;
    } else {
      var head := if a[0].Click? then [a[0].target] else [];
      assert (a + b)[0] == a[0];
      assert (a + b)[1..] == a[1..] + b;
      ClicksAppend(a[1..], b);
      calc {
        Clicks(a + b);
        head + Clicks(a[1..] + b);
        head + (Clicks(a[1..]) + Clicks(b));
        (head + Clicks(a[1..])) + Clicks(b);
        Clicks(a) + Clicks(b);
      }
    }
  }

  lemma {:induction false} CountAppend(a: seq<Event>, b: seq<Event>, e: Event)
    ensures Count(a + b, e) == Count(a, e) + Count(b, e)
  {
    if a == [] {
      assert a + b == b;
    } else {
      assert (a + b)[1..] == a[1..] + b;
      CountAppend(a[1..], b, e);
    }
  }

  /** A click attempt is a single event: a sequence of events with one click at
      its head and none after has exactly that click point. */
  lemma ClicksOfAttempt(pre: seq<Event>, c: Event, post: seq<Event>)
    requires c.Click?
    requires forall e | e in pre + post :: !e.Click?
    ensures Clicks(pre + [c] + post) == [c.target]
  {
    NoClicks(pre);
    NoClicks(post);
    ClicksAppend(pre + [c], post);
    ClicksAppend(pre, [c]);
  }

  lemma {:induction false} NoClicks(es: seq<Event>)
    requires forall e | e in es :: !e.Click?
    ensures Clicks(es) == []
  {
    if es != [] {
      assert es[0] in es;
      NoClicks(es[1..]);
    }
  }
}
