/** Source-order liveness of a compiled MIL program: the pressure sweep, and why no allocator can do better. */
module Liveness {

  datatype Tensor = Tensor(name: string, size: nat, isConst: bool, definition: nat)

  /** The declared tensors by name, in first-declaration order; a later declaration of a name replaces the earlier
      one. */
  datatype Program = Program(lines: nat, tensors: seq<Tensor>, uses: seq<set<string>>)
  {
    ghost predicate Valid() {
      && |uses| == lines
      && (forall i :: 0 <= i < |tensors| ==> tensors[i].definition < lines)
      && (forall i, j :: 0 <= i < j < |tensors| ==> tensors[i].name != tensors[j].name)
    }
  }

  // ---- Last uses ----

  /** The last line before `n` that mentions the name, if it is later than the definition; otherwise the definition. */
  function LastUse(uses: seq<set<string>>, t: Tensor, n: nat): (r: nat)
    requires n <= |uses|
    ensures t.definition <= r && (r < n || r == t.definition)
    ensures r == t.definition || t.name in uses[r]
    ensures forall line :: t.definition <= line < n && t.name in uses[line] ==> line <= r
  {
    if n == 0 then t.definition
    else
      var before := LastUse(uses, t, n - 1);
      if t.name in uses[n - 1] && n - 1 > before then n - 1 else before
  }

  /** The table holds the last use of every tensor. */
  ghost predicate IsTable(p: Program, lastUse: map<string, nat>)
    requires |p.uses| == p.lines
  {
    forall t :: t in p.tensors ==> t.name in lastUse && lastUse[t.name] == LastUse(p.uses, t, p.lines)
  }

  /** The use loop: every mention of a declared name moves its last use forward. */
  method LastUses(p: Program) returns (lastUse: map<string, nat>)
    requires p.Valid()
    ensures IsTable(p, lastUse)
  {
    lastUse := map[];
    for i := 0 to |p.tensors|
      invariant forall j :: 0 <= j < i ==>
                p.tensors[j].name in lastUse && lastUse[p.tensors[j].name] == p.tensors[j].definition
    {
      lastUse := lastUse[p.tensors[i].name := p.tensors[i].definition];
    }
    for line := 0 to p.lines
      invariant forall j :: 0 <= j < |p.tensors| ==>
                  p.tensors[j].name in lastUse && lastUse[p.tensors[j].name] == LastUse(p.uses, p.tensors[j], line)
    {
      lastUse := map name | name in lastUse ::
        if name in p.uses[line] && line > lastUse[name] then line else lastUse[name];
    }
  }

  // ---- Live tensors ----

  /** A non-constant tensor is live from its definition to its last use. */
  predicate Live(p: Program, t: Tensor, line: nat)
    requires |p.uses| == p.lines
  {
    !t.isConst && t.definition <= line <= LastUse(p.uses, t, p.lines)
  }

  function LiveAt(p: Program, line: nat, n: nat): (r: seq<Tensor>)
    requires |p.uses| == p.lines && n <= |p.tensors|
    ensures forall t :: t in r ==> t in p.tensors[..n] && Live(p, t, line)
  {
    if n == 0 then []
    else LiveAt(p, line, n - 1) + if Live(p, p.tensors[n - 1], line) then [p.tensors[n - 1]] else []
  }

  function Bytes(ts: seq<Tensor>): nat {
    if |ts| == 0 then 0 else Bytes(ts[..|ts| - 1]) + ts[|ts| - 1].size
  }

  function Pressure(p: Program, line: nat): nat
    requires |p.uses| == p.lines
  {
    Bytes(LiveAt(p, line, |p.tensors|))
  }

  lemma LiveByTable(p: Program, lastUse: map<string, nat>, line: nat, i: nat)
    requires |p.uses| == p.lines && IsTable(p, lastUse) && i < |p.tensors|
    ensures var t := p.tensors[i];
            && t.name in lastUse
            && (Live(p, t, line) <==> !t.isConst && t.definition <= line <= lastUse[t.name])
  {
    assert p.tensors[i] in p.tensors;
  }

  lemma LiveStep(p: Program, line: nat, i: nat)
    requires |p.uses| == p.lines && i < |p.tensors|
    ensures var t, before, after := p.tensors[i], LiveAt(p, line, i), LiveAt(p, line, i + 1);
            if Live(p, t, line) then after == before + [t] && Bytes(after) == Bytes(before) + t.size
            else after == before
  {
    BytesAppend(LiveAt(p, line, i), p.tensors[i]);
    EmptyAppend(LiveAt(p, line, i));
  }

  /** The tensors active on a line, filtered through the last-use table. */
  method Active(p: Program, lastUse: map<string, nat>, line: nat) returns (active: seq<Tensor>, total: nat)
    requires p.Valid() && IsTable(p, lastUse)
    ensures active == LiveAt(p, line, |p.tensors|) && total == Pressure(p, line)
  {
    active, total := [], 0;
    for i := 0 to |p.tensors|
      invariant active == LiveAt(p, line, i) && total == Bytes(active)
    {
      var t := p.tensors[i];
      LiveByTable(p, lastUse, line, i);
      LiveStep(p, line, i);
      if !t.isConst && t.definition <= line <= lastUse[t.name] {
        active, total := active + [t], total + t.size;
      }
    }
  }

  /** The sweep: the peak is the true maximum over all lines, its line is the first to attain it, and the reported names
      are the tensors live there. */
  method Peak(p: Program) returns (line: nat, bytes: nat, names: seq<Tensor>)
    requires p.Valid()
    ensures forall l :: 0 <= l < p.lines ==> Pressure(p, l) <= bytes
    ensures bytes > 0 ==> line < p.lines && Pressure(p, line) == bytes && names == LiveAt(p, line, |p.tensors|)
    ensures bytes > 0 ==> forall l :: 0 <= l < line ==> Pressure(p, l) < bytes
    ensures bytes == 0 ==> line == 0 && names == []
  {
    var lastUse := LastUses(p);
    line, bytes, names := 0, 0, [];
    for l := 0 to p.lines
      invariant forall k :: 0 <= k < l ==> Pressure(p, k) <= bytes
      invariant bytes > 0 ==> line < l && Pressure(p, line) == bytes && names == LiveAt(p, line, |p.tensors|)
      invariant bytes > 0 ==> forall k :: 0 <= k < line ==> Pressure(p, k) < bytes
      invariant bytes == 0 ==> line == 0 && names == []
    {
      var active, total := Active(p, lastUse, l);
      if total > bytes {
        line, bytes, names := l, total, active;
      }
    }
  }

  // ---- Where the peak is ----

  /** Between definitions the live set only shrinks, so a line that defines no non-constant tensor needs no more bytes
      than the line before it. */
  lemma {:induction false} NoDefinitionNoGrowth(p: Program, line: nat, n: nat)
    requires |p.uses| == p.lines && n <= |p.tensors| && line > 0
    requires forall i :: 0 <= i < n ==> p.tensors[i].isConst || p.tensors[i].definition != line
    ensures Bytes(LiveAt(p, line, n)) <= Bytes(LiveAt(p, line - 1, n))
  {
    if n > 0 {
      NoDefinitionNoGrowth(p, line, n - 1);
      var t := p.tensors[n - 1];
      BytesAppend(LiveAt(p, line, n - 1), t);
      BytesAppend(LiveAt(p, line - 1, n - 1), t);
      EmptyAppend(LiveAt(p, line, n - 1));
      EmptyAppend(LiveAt(p, line - 1, n - 1));
    }
  }

  lemma {:induction false} BytesAppend(ts: seq<Tensor>, t: Tensor)
    ensures Bytes(ts + [t]) == Bytes(ts) + t.size
  {
  }

  lemma EmptyAppend(ts: seq<Tensor>)
    ensures ts + [] == ts
  {
  }

  lemma {:induction false} NothingLiveBeforeDefinitions(p: Program, n: nat)
    requires |p.uses| == p.lines && n <= |p.tensors|
    requires forall i :: 0 <= i < n ==> p.tensors[i].isConst || p.tensors[i].definition != 0
    ensures LiveAt(p, 0, n) == []
  {
    if n > 0 {
      NothingLiveBeforeDefinitions(p, n - 1);
    }
  }

  /** The first line that attains a positive peak defines a non-constant tensor. */
  lemma PeakIsDefinition(p: Program, line: nat)
    requires p.Valid() && line < p.lines && Pressure(p, line) > 0
    requires forall l :: 0 <= l < line ==> Pressure(p, l) < Pressure(p, line)
    ensures exists i :: 0 <= i < |p.tensors| && !p.tensors[i].isConst && p.tensors[i].definition == line
  {
    if forall i :: 0 <= i < |p.tensors| ==> p.tensors[i].isConst || p.tensors[i].definition != line {
      if line == 0 {
        NothingLiveBeforeDefinitions(p, |p.tensors|);
      } else {
        assert Pressure(p, line - 1) < Pressure(p, line);
        NoDefinitionNoGrowth(p, line, |p.tensors|);
      }
    }
  }

  // ---- No allocator fits in less ----

  /** A placement puts every non-constant tensor at an offset inside `memory` bytes, with simultaneously live tensors on
      disjoint byte ranges. */
  ghost predicate Places(p: Program, offset: map<string, nat>, memory: nat)
    requires p.Valid()
  {
    && (forall t :: t in p.tensors && !t.isConst ==> t.name in offset && offset[t.name] + t.size <= memory)
    && (forall t, u, line :: t in p.tensors && u in p.tensors && t.name != u.name && 0 <= line < p.lines
                             && Live(p, t, line) && Live(p, u, line) ==>
          offset[t.name] + t.size <= offset[u.name] || offset[u.name] + u.size <= offset[t.name])
  }

  function Range(lo: nat, n: nat): (r: set<nat>)
    ensures forall x :: x in r <==> lo <= x < lo + n
    ensures |r| == n
  {
    if n == 0 then {} else Range(lo, n - 1) + {lo + (n - 1)}
  }

  /** The bytes a list of tensors occupies. */
  ghost function Occupied(ts: seq<Tensor>, offset: map<string, nat>): set<nat>
    requires forall t :: t in ts ==> t.name in offset
  {
    if |ts| == 0 then {}
    else Occupied(ts[..|ts| - 1], offset) + Range(offset[ts[|ts| - 1].name], ts[|ts| - 1].size)
  }

  ghost predicate Apart(t: Tensor, u: Tensor, offset: map<string, nat>)
    requires t.name in offset && u.name in offset
  {
    offset[t.name] + t.size <= offset[u.name] || offset[u.name] + u.size <= offset[t.name]
  }

  lemma {:induction false} OccupiedMembers(ts: seq<Tensor>, offset: map<string, nat>, x: nat)
    requires forall t :: t in ts ==> t.name in offset
    ensures x in Occupied(ts, offset) <==> exists t :: t in ts && offset[t.name] <= x < offset[t.name] + t.size
  {
    if |ts| > 0 {
      var front, last := ts[..|ts| - 1], ts[|ts| - 1];
      OccupiedMembers(front, offset, x);
      assert ts == front + [last];
    }
  }

  /** Pairwise disjoint ranges occupy the sum of their sizes. */
  lemma {:induction false} OccupiedSize(ts: seq<Tensor>, offset: map<string, nat>)
    requires forall t :: t in ts ==> t.name in offset
    requires forall i, j :: 0 <= i < j < |ts| ==> Apart(ts[i], ts[j], offset)
    ensures |Occupied(ts, offset)| == Bytes(ts)
  {
    if |ts| > 0 {
      var front, last := ts[..|ts| - 1], ts[|ts| - 1];
      OccupiedSize(front, offset);
      var range := Range(offset[last.name], last.size);
      forall x | x in range
        ensures x !in Occupied(front, offset)
      {
        OccupiedMembers(front, offset, x);
        forall t | t in front
          ensures !(offset[t.name] <= x < offset[t.name] + t.size)
        {
          var i :| 0 <= i < |front| && front[i] == t;
          assert Apart(ts[i], ts[|ts| - 1], offset);
        }
      }
      assert Occupied(front, offset) !! range;
    }
  }

  lemma {:induction false} LiveAtDistinct(p: Program, line: nat, n: nat)
    requires p.Valid() && n <= |p.tensors|
    ensures forall i, j :: 0 <= i < j < |LiveAt(p, line, n)| ==>
              LiveAt(p, line, n)[i].name != LiveAt(p, line, n)[j].name
  {
    if n > 0 {
      LiveAtDistinct(p, line, n - 1);
      var rest := LiveAt(p, line, n - 1);
      forall i | 0 <= i < |rest|
        ensures rest[i].name != p.tensors[n - 1].name
      {
        assert rest[i] in p.tensors[..n - 1];
      }
    }
  }

  lemma SubsetCardinality(a: set<nat>, b: set<nat>)
    requires a <= b
    ensures |a| <= |b|
  {
    if a != b {
      assert b == a + (b - a);
    }
  }

  /** No placement fits in fewer bytes than the pressure of any line, hence than the reported peak. */
  lemma NoSmallerPlacement(p: Program, offset: map<string, nat>, memory: nat, line: nat)
    requires p.Valid() && Places(p, offset, memory) && line < p.lines
    ensures Pressure(p, line) <= memory
  {
    var live := LiveAt(p, line, |p.tensors|);
    LiveAtDistinct(p, line, |p.tensors|);
    assert forall t :: t in live ==> t in p.tensors;
    OccupiedSize(live, offset);
    forall x | x in Occupied(live, offset)
      ensures x in Range(0, memory)
    {
      OccupiedMembers(live, offset, x);
    }
    SubsetCardinality(Occupied(live, offset), Range(0, memory));
  }

  /** Liveness through the use lines: a non-constant tensor is live on its own line, and on any later line from which
      some line, that one included, still mentions it. */
  lemma LiveMeans(p: Program, t: Tensor, line: nat)
    requires p.Valid() && t in p.tensors && line < p.lines
    ensures Live(p, t, line) <==>
              && !t.isConst && t.definition <= line
              && (line == t.definition || exists use :: line <= use < p.lines && t.name in p.uses[use])
  {
    var last := LastUse(p.uses, t, p.lines);
    if t.definition < line <= last {
      assert last < p.lines && t.name in p.uses[last];
    }
  }

  /** The tensors counted on a line are exactly its live ones. */
  lemma {:induction false} PressureMeans(p: Program, line: nat, n: nat, t: Tensor)
    requires p.Valid() && n <= |p.tensors| && t in p.tensors[..n]
    ensures t in LiveAt(p, line, n) <==> Live(p, t, line)
  {
    if t in p.tensors[..n - 1] {
      PressureMeans(p, line, n - 1, t);
    } else {
      assert t == p.tensors[n - 1];
    }
  }
}
