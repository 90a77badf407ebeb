/** Comparing a policy's decisions on two trees, row by row (scripts/permissions-grid.ts). */
module GridCompare {
  import opened Seqs

  datatype Row = Row(id: string, context: string, text: string, benign: bool)
  datatype Decision = Block | Allow
  datatype Ruling = Blocked | Clear | Throws

  /** A tree's policy: a text's argument vectors, whether producing them ends in a throw, and the ruling on each. */
  datatype Tree = Tree(argvs: string -> seq<seq<string>>, throwsAfter: string -> bool, rule: seq<string> -> Ruling)

  /** First argument vector that is blocked or throws, or their number. */
  function Stop(t: Tree, argvs: seq<seq<string>>): (i: nat)
    ensures i <= |argvs|
    ensures i < |argvs| ==> !t.rule(argvs[i]).Clear?
    ensures forall k :: 0 <= k < i ==> t.rule(argvs[k]).Clear?
  {
    if argvs == [] || !t.rule(argvs[0]).Clear? then 0
    else
      assert forall k :: 1 <= k < |argvs| ==> argvs[k] == argvs[1..][k - 1];
      1 + Stop(t, argvs[1..])
  }

  predicate Refuses(t: Tree, r: Row) {
    Stop(t, t.argvs(r.text)) < |t.argvs(r.text)| || t.throwsAfter(r.text)
  }

  predicate Threw(t: Tree, r: Row) {
    var argvs := t.argvs(r.text);
    var i := Stop(t, argvs);
    if i < |argvs| then t.rule(argvs[i]).Throws? else t.throwsAfter(r.text)
  }

  function Decide(t: Tree, r: Row): Decision {
    if Refuses(t, r) then Block else Allow
  }

  /** Later rows overwrite earlier ones with the same id. */
  function Decisions(t: Tree, rows: seq<Row>): map<string, Decision> {
    if rows == [] then map[]
    else
      var r := rows[|rows| - 1];
      Decisions(t, rows[..|rows| - 1])[r.id := Decide(t, r)]
  }

  /** Fails closed: a row is blocked exactly when some argument vector is ruled out or anything throws. */
  lemma RefusesMeaning(t: Tree, r: Row)
    ensures Refuses(t, r) <==>
            t.throwsAfter(r.text) || exists i :: 0 <= i < |t.argvs(r.text)| && !t.rule(t.argvs(r.text)[i]).Clear?
    ensures Threw(t, r) ==> Refuses(t, r)
  {
    var i := Stop(t, t.argvs(r.text));
  }

  method DecideOne(t: Tree, r: Row) returns (blocked: bool, threw: bool)
    ensures blocked == Refuses(t, r) && threw == Threw(t, r)
    ensures
      var argvs := t.argvs(r.text);
      && (blocked <==> t.throwsAfter(r.text) || exists i :: 0 <= i < |argvs| && !t.rule(argvs[i]).Clear?)
      && (threw <==>
          || (t.throwsAfter(r.text) && forall i :: 0 <= i < |argvs| ==> t.rule(argvs[i]).Clear?)
          || exists i :: 0 <= i < |argvs| && t.rule(argvs[i]).Throws?
               && forall k :: 0 <= k < i ==> t.rule(argvs[k]).Clear?)
  {
    var argvs := t.argvs(r.text);
    for i := 0 to |argvs|
      invariant forall k :: 0 <= k < i ==> t.rule(argvs[k]).Clear?
    {
      match t.rule(argvs[i])
      case Blocked => return true, false;
      case Throws => return true, true;
      case Clear =>
    }
    return t.throwsAfter(r.text), t.throwsAfter(r.text);
  }

  method DecideAll(t: Tree, rows: seq<Row>) returns (out: map<string, Decision>, threw: set<string>)
    ensures out == Decisions(t, rows)
    ensures threw == set i | 0 <= i < |rows| && Threw(t, rows[i]) :: rows[i].id
  {
    hide Refuses, Threw;
    out, threw := map[], {};
    for i := 0 to |rows|
      invariant out == Decisions(t, rows[..i])
      invariant threw == set k | 0 <= k < i && Threw(t, rows[k]) :: rows[k].id
    {
      assert rows[..i + 1][..i] == rows[..i];
      var blocked, threwHere := DecideOne(t, rows[i]);
      if threwHere {
        threw := threw + {rows[i].id};
      }
      out := out[rows[i].id := if blocked then Block else Allow];
    }
    assert rows[..|rows|] == rows;
  }

  ghost predicate DistinctIds(rows: seq<Row>) {
    forall i, j :: 0 <= i < j < |rows| ==> rows[i].id != rows[j].id
  }

  lemma {:induction false} DecisionsOfRows(t: Tree, rows: seq<Row>)
    requires DistinctIds(rows)
    ensures forall id :: id in Decisions(t, rows) <==> exists i :: 0 <= i < |rows| && rows[i].id == id
    ensures forall i :: 0 <= i < |rows| ==> Decisions(t, rows)[rows[i].id] == Decide(t, rows[i])
  {
    hide Decide;
    if rows != [] {
      DecisionsOfRows(t, rows[..|rows| - 1]);
    }
  }

  /** Of several rows with one id the last decides. */
  lemma {:induction false} LastRowDecides(t: Tree, rows: seq<Row>, i: nat)
    requires i < |rows| && forall j :: i < j < |rows| ==> rows[j].id != rows[i].id
    ensures rows[i].id in Decisions(t, rows) && Decisions(t, rows)[rows[i].id] == Decide(t, rows[i])
  {
    hide Decide;
    if i < |rows| - 1 {
      LastRowDecides(t, rows[..|rows| - 1], i);
    }
  }

  function Flipped(head: map<string, Decision>, base: map<string, Decision>, now: Decision, before: Decision)
    : Row -> seq<Row>
  {
    (r: Row) => if r.id in head && r.id in base && head[r.id] == now && base[r.id] == before then [r] else []
  }

  function BlockedIds(m: map<string, Decision>): set<string> {
    set id | id in m && m[id] == Block
  }

  /** The comparison part of the grid run. */
  method Compare(head: Tree, base: Tree, rows: seq<Row>)
    returns (newlyBlocked: seq<Row>, newlyAllowed: seq<Row>, headBlocked: nat, baseBlocked: nat)
    ensures newlyBlocked == Flat(rows, Flipped(Decisions(head, rows), Decisions(base, rows), Block, Allow))
    ensures newlyAllowed == Flat(rows, Flipped(Decisions(head, rows), Decisions(base, rows), Allow, Block))
    ensures headBlocked == |BlockedIds(Decisions(head, rows))| && baseBlocked == |BlockedIds(Decisions(base, rows))|
  {
    var hd, threw := DecideAll(head, rows);
    var bd, _ := DecideAll(base, rows);
    hide Decisions;
    newlyBlocked, newlyAllowed := [], [];
    for i := 0 to |rows|
      invariant newlyBlocked == Flat(rows[..i], Flipped(hd, bd, Block, Allow))
      invariant newlyAllowed == Flat(rows[..i], Flipped(hd, bd, Allow, Block))
    {
      var r := rows[i];
      FlatStep(rows, i, Flipped(hd, bd, Block, Allow));
      FlatStep(rows, i, Flipped(hd, bd, Allow, Block));
      if r.id in hd && r.id in bd && hd[r.id] == Block && bd[r.id] == Allow {
        newlyBlocked := newlyBlocked + [r];
      }
      if r.id in hd && r.id in bd && hd[r.id] == Allow && bd[r.id] == Block {
        newlyAllowed := newlyAllowed + [r];
      }
    }
    assert rows[..|rows|] == rows;
    headBlocked, baseBlocked := |BlockedIds(hd)|, |BlockedIds(bd)|;
  }

  function FlippedRow(head: Tree, base: Tree, now: Decision, before: Decision): Row -> seq<Row> {
    (r: Row) => if Decide(head, r) == now && Decide(base, r) == before then [r] else []
  }

  lemma {:induction false} BlockedCount(t: Tree, rows: seq<Row>, r: Row)
    requires DistinctIds(rows + [r])
    ensures |BlockedIds(Decisions(t, rows + [r]))|
            == |BlockedIds(Decisions(t, rows))| + if Decide(t, r) == Block then 1 else 0
  {
    hide Decide;
    assert (rows + [r])[..|rows|] == rows;
    assert forall i :: 0 <= i < |rows| ==> (rows + [r])[i] == rows[i];
    assert DistinctIds(rows) && (rows + [r])[|rows|] == r;
    DecisionsOfRows(t, rows);
    BlockedOneMore(Decisions(t, rows), r.id, Decide(t, r));
  }

  lemma BlockedOneMore(before: map<string, Decision>, id: string, now: Decision)
    requires id !in before
    ensures |BlockedIds(before[id := now])| == |BlockedIds(before)| + if now == Block then 1 else 0
  {
    var after := before[id := now];
    if now == Block {
      assert BlockedIds(after) == BlockedIds(before) + {id};
    } else {
      assert BlockedIds(after) == BlockedIds(before);
    }
  }

  /** With distinct row ids, what changed accounts exactly for the difference in blocked counts. */
  lemma {:induction false} FlipsBalance(head: Tree, base: Tree, rows: seq<Row>)
    requires DistinctIds(rows)
    ensures
      |BlockedIds(Decisions(head, rows))| - |BlockedIds(Decisions(base, rows))|
      == |Flat(rows, FlippedRow(head, base, Block, Allow))| - |Flat(rows, FlippedRow(head, base, Allow, Block))|
  {
    if rows == [] {
      assert BlockedIds(Decisions(head, rows)) == {} == BlockedIds(Decisions(base, rows));
    } else {
      hide Decide, Decisions, BlockedIds;
      var n := |rows| - 1;
      assert rows == rows[..n] + [rows[n]];
      FlipsBalance(head, base, rows[..n]);
      BlockedCount(head, rows[..n], rows[n]);
      BlockedCount(base, rows[..n], rows[n]);
    }
  }

  lemma FlippedRows(head: Tree, base: Tree, rows: seq<Row>, r: Row)
    ensures r in Flat(rows, FlippedRow(head, base, Block, Allow))
            <==> r in rows && Refuses(head, r) && !Refuses(base, r)
    ensures r in Flat(rows, FlippedRow(head, base, Allow, Block))
            <==> r in rows && !Refuses(head, r) && Refuses(base, r)
  {
    hide Refuses, Flat;
    FlatMember(rows, FlippedRow(head, base, Block, Allow), r);
    FlatMember(rows, FlippedRow(head, base, Allow, Block), r);
  }

  /** The lists are the rows whose decisions differ, and none is newly allowed exactly when the head is as strict. */
  lemma ReportMeaning(head: Tree, base: Tree, rows: seq<Row>)
    requires DistinctIds(rows)
    ensures forall now, before :: Flat(rows, Flipped(Decisions(head, rows), Decisions(base, rows), now, before))
                                  == Flat(rows, FlippedRow(head, base, now, before))
    ensures Flat(rows, FlippedRow(head, base, Allow, Block)) == []
            <==> forall i :: 0 <= i < |rows| && Refuses(base, rows[i]) ==> Refuses(head, rows[i])
    ensures forall r :: r in Flat(rows, FlippedRow(head, base, Block, Allow))
                        <==> r in rows && Refuses(head, r) && !Refuses(base, r)
    ensures forall r :: r in Flat(rows, FlippedRow(head, base, Allow, Block))
                        <==> r in rows && !Refuses(head, r) && Refuses(base, r)
  {
    hide Refuses, Decisions;
    DecisionsOfRows(head, rows);
    DecisionsOfRows(base, rows);
    forall now, before
      ensures Flat(rows, Flipped(Decisions(head, rows), Decisions(base, rows), now, before))
              == Flat(rows, FlippedRow(head, base, now, before))
    {
      var flipped := Flipped(Decisions(head, rows), Decisions(base, rows), now, before);
      FlatSame(rows, flipped, FlippedRow(head, base, now, before));
    }
    FlatEmpty(rows, FlippedRow(head, base, Allow, Block));
    forall r {
      FlippedRows(head, base, rows, r);
    }
  }
}
