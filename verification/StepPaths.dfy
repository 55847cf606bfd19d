/** The textual step paths that key `_done`, `run_steps` and the outbox. */
module StepPaths {
  import opened Workflow
  import opened Decimals

  function ViaText(via: Via): string {
    match via
    case Top => ""
    case Then => ".then"
    case Else => ".else"
    case Item(i) => "[" + Digits(i) + "]"
  }

  /** A path as the executor spells it: `a.then.b`, `loop[3].c`. */
  function Render(q: Path): string {
    if |q| == 0 then "" else
    if |q| == 1 then q[0].id else
    Render(q[..|q| - 1]) + ViaText(q[|q| - 1].via) + "." + q[|q| - 1].id
  }

  function OutboxKey(runId: string, q: Path): string {
    "ff:" + runId + ":" + Render(q)
  }

  /** How a path is spelled from the outside in, and the key of its email. */
  lemma PathsAreSpelled(q: Path, id: Id, i: nat, runId: string)
    ensures Render([Hop(Top, id)]) == id
    ensures |q| > 0 ==> Render(q + [Hop(Then, id)]) == Render(q) + ".then." + id
    ensures |q| > 0 ==> Render(q + [Hop(Else, id)]) == Render(q) + ".else." + id
    ensures |q| > 0 ==> Render(q + [Hop(Item(i), id)]) == Render(q) + ("[" + Digits(i) + "]") + "." + id
    ensures OutboxKey(runId, q) == "ff:" + runId + ":" + Render(q)
  {
    hide Render, Digits;
    TopHop(Hop(Top, id));
    if |q| > 0 {
      OneMoreHop(q, Hop(Then, id));
      OneMoreHop(q, Hop(Else, id));
      OneMoreHop(q, Hop(Item(i), id));
      assert Render(q) + ".then" + "." + id == Render(q) + ".then." + id;
      assert Render(q) + ".else" + "." + id == Render(q) + ".else." + id;
    }
  }

  lemma TopHop(h: Hop)
    ensures Render([h]) == h.id
  {
  }

  lemma OneMoreHop(q: Path, h: Hop)
    requires |q| > 0
    ensures Render(q + [h]) == Render(q) + ViaText(h.via) + "." + h.id
  {
    assert (q + [h])[..|q|] == q;
  }

  ghost predicate StepPath(q: Path) {
    |q| > 0 && q[0].via == Top && (forall j :: 0 < j < |q| ==> q[j].via != Top) && forall j :: 0 <= j < |q| ==> '.' !in q[j].id
  }

  lemma NoneAfter(s1: string, t1: string, c: char)
    requires c !in t1
    ensures forall k {:trigger (s1 + [c] + t1)[k]} :: |s1| < k < |s1| + 1 + |t1| ==> (s1 + [c] + t1)[k] != c
  {
    forall k | |s1| < k < |s1| + 1 + |t1| ensures (s1 + [c] + t1)[k] != c {
      assert (s1 + [c] + t1)[k] == t1[k - |s1| - 1];
    }
  }

  /** Text before and after the last `c` is determined. */
  lemma SplitLast(s1: string, t1: string, s2: string, t2: string, c: char)
    requires s1 + [c] + t1 == s2 + [c] + t2 && c !in t1 && c !in t2
    ensures s1 == s2 && t1 == t2
  {
    var s := s1 + [c] + t1;
    NoneAfter(s1, t1, c);
    NoneAfter(s2, t2, c);
    assert s[|s1|] == c && s[|s2|] == c;
    assert |s1| == |s2|;
    assert s[..|s1|] == s1 == s2;
    assert s[|s1| + 1..] == t1 == t2;
  }

  lemma CutEnd(s1: string, s2: string, t: string)
    requires s1 + t == s2 + t
    ensures s1 == s2
  {
    assert (s1 + t)[..|s1|] == s1 && (s2 + t)[..|s2|] == s2;
  }

  function LastChar(via: Via): char
    requires via != Top
  {
    match via
    case Then => 'n'
    case Else => 'e'
    case Item(_) => ']'
  }

  lemma ViaEnd(s1: string, via: Via)
    requires via != Top
    ensures var s := s1 + ViaText(via);
            |s| > 0 && s[|s| - 1] == LastChar(via)
  {
  }

  lemma ViaSplit(s1: string, v1: Via, s2: string, v2: Via)
    requires s1 + ViaText(v1) == s2 + ViaText(v2) && v1 != Top && v2 != Top
    ensures s1 == s2 && v1 == v2
  {
    ViaEnd(s1, v1);
    ViaEnd(s2, v2);
    match v1
    case Then => CutEnd(s1, s2, ".then");
    case Else => CutEnd(s1, s2, ".else");
    case Item(i) => ItemSplit(s1, i, s2, v2.index);
  }

  lemma ItemSplit(s1: string, i: nat, s2: string, j: nat)
    requires s1 + ViaText(Item(i)) == s2 + ViaText(Item(j))
    ensures s1 == s2 && i == j
  {
    var di, dj := Digits(i), Digits(j);
    assert s1 + ViaText(Item(i)) == s1 + ['['] + (di + "]");
    assert s2 + ViaText(Item(j)) == s2 + ['['] + (dj + "]");
    hide ViaText;
    SplitLast(s1, di + "]", s2, dj + "]", '[');
    CutEnd(di, dj, "]");
    ParseDigits(i);
    ParseDigits(j);
  }

  lemma RenderLast(q: Path)
    requires |q| > 0
    ensures |q| == 1 ==> Render(q) == q[0].id
    ensures |q| > 1 ==> Render(q) == Render(q[..|q| - 1]) + ViaText(q[|q| - 1].via) + ['.'] + q[|q| - 1].id
  {
  }

  lemma Peel(q1: Path, q2: Path)
    requires |q1| > 1 && |q2| > 1 && Render(q1) == Render(q2)
    requires q1[|q1| - 1].via != Top && q2[|q2| - 1].via != Top
    requires '.' !in q1[|q1| - 1].id && '.' !in q2[|q2| - 1].id
    ensures q1[|q1| - 1] == q2[|q2| - 1] && Render(q1[..|q1| - 1]) == Render(q2[..|q2| - 1])
  {
    var r1, r2, h1, h2 := Render(q1[..|q1| - 1]), Render(q2[..|q2| - 1]), q1[|q1| - 1], q2[|q2| - 1];
    RenderLast(q1);
    RenderLast(q2);
    hide Render, ViaText;
    SplitLast(r1 + ViaText(h1.via), h1.id, r2 + ViaText(h2.via), h2.id, '.');
    ViaSplit(r1, h1.via, r2, h2.via);
  }

  lemma ShorterPath(q: Path)
    requires StepPath(q) && |q| > 1
    ensures StepPath(q[..|q| - 1]) && q == q[..|q| - 1] + [q[|q| - 1]]
  {
  }

  /** Distinct step instances have distinct paths when no id holds a dot. */
  lemma {:induction false} RenderInjective(q1: Path, q2: Path)
    requires StepPath(q1) && StepPath(q2) && Render(q1) == Render(q2)
    ensures q1 == q2
    decreases |q1|
  {
    RenderDot(q1);
    RenderDot(q2);
    if |q1| == 1 {
      OneHop(q1, q2);
    } else {
      Peel(q1, q2);
      ShorterPath(q1);
      ShorterPath(q2);
      hide StepPath, Render;
      RenderInjective(q1[..|q1| - 1], q2[..|q2| - 1]);
    }
  }

  lemma OneHop(q1: Path, q2: Path)
    requires |q1| == |q2| == 1 && q1[0].via == q2[0].via && Render(q1) == Render(q2)
    ensures q1 == q2
  {
  }

  lemma RenderDot(q: Path)
    requires StepPath(q)
    ensures '.' in Render(q) <==> |q| > 1
  {
    if |q| > 1 {
      var t := Render(q[..|q| - 1]) + ViaText(q[|q| - 1].via);
      assert Render(q)[|t|] == '.';
    }
  }

  lemma OutboxKeyInjective(runId: string, q1: Path, q2: Path)
    requires StepPath(q1) && StepPath(q2) && OutboxKey(runId, q1) == OutboxKey(runId, q2)
    ensures q1 == q2
  {
    var pre := "ff:" + runId + ":";
    assert OutboxKey(runId, q1)[|pre|..] == Render(q1);
    assert OutboxKey(runId, q2)[|pre|..] == Render(q2);
    RenderInjective(q1, q2);
  }

  lemma RenderMore(q: Path, h: Hop)
    requires |q| > 0
    ensures Render(q + [h]) == Render(q) + ViaText(h.via) + "." + h.id
  {
    assert (q + [h])[..|q|] == q;
  }

  /**
   * The children of a condition bypass the schema of step ids, and an id with a dot can spell the path of another
   * step: next to any step `x` below `q`, an id made of `x`, the hop and the id of any step `y` in it has the path and
   * the idempotency key of that `y`.
   */
  lemma DottedIdsCollide(runId: string, q: Path, u: Via, x: Id, v: Via, y: Id)
    requires |q| > 0 && v != Top
    ensures var nested, dotted := q + [Hop(u, x), Hop(v, y)], q + [Hop(u, x + ViaText(v) + "." + y)];
            nested != dotted && Render(nested) == Render(dotted) && OutboxKey(runId, nested) == OutboxKey(runId, dotted)
  {
    hide ViaText, Render;
    assert q + [Hop(u, x), Hop(v, y)] == q + [Hop(u, x)] + [Hop(v, y)];
    RenderMore(q, Hop(u, x));
    RenderMore(q + [Hop(u, x)], Hop(v, y));
    RenderMore(q, Hop(u, x + ViaText(v) + "." + y));
    var r, t := Render(q), ViaText(v) + "." + y;
    assert r + ViaText(u) + "." + x + ViaText(v) + "." + y == r + ViaText(u) + "." + (x + ViaText(v) + "." + y);
  }
}
