/** First in, first out: a line in which every job joins when its last need has been taken from the front comes in
    waves. */
module Waves {
  import opened Models

  /** One more than the highest level among the needs; nothing needed is level zero. */
  ghost function LevelAfter(levels: map<Name, nat>, needs: seq<Name>): nat {
    if needs == [] then 0 else
    var last := |needs| - 1;
    var rest := LevelAfter(levels, needs[..last]);
    var here := if needs[last] in levels then levels[needs[last]] + 1 else 0;
    if here > rest then here else rest
  }

  /** The level of a job follows from those of its needs. */
  ghost predicate IsLevelled(levels: map<Name, nat>, name: Name, needs: seq<Name>) {
    name in levels && (forall n :: n in needs ==> n in levels) && levels[name] == LevelAfter(levels, needs)
  }

  ghost predicate Rising(levels: map<Name, nat>, line: seq<Name>) {
    && (forall i :: 0 <= i < |line| ==> line[i] in levels)
    && forall i, j :: 0 <= i < j < |line| ==> levels[line[i]] <= levels[line[j]]
  }

  ghost predicate WaveLevels(order: seq<Job>, levels: map<Name, nat>) {
    && (forall i :: 0 <= i < |order| ==> IsLevelled(levels, order[i].name, order[i].needs))
    && forall i, j :: 0 <= i < j < |order| ==> levels[order[i].name] <= levels[order[j].name]
  }

  /** Jobs come in waves: none stands before one of a lower level. */
  ghost predicate InWaves(order: seq<Job>) {
    exists levels :: WaveLevels(order, levels)
  }

  /** The line so far, taken from the front up to `at`. */
  ghost predicate WaveLine(needs: map<Name, seq<Name>>, line: seq<Name>, at: nat, levels: map<Name, nat>) {
    && at <= |line| && Distinct(line) && Rising(levels, line) && levels.Keys == (set n | n in line)
    && (forall i :: 0 <= i < |line| ==> line[i] in needs && IsLevelled(levels, line[i], needs[line[i]]))
    && (at < |line| ==> levels[line[|line| - 1]] <= levels[line[at]] + 1)
  }

  lemma {:induction false} LevelIs(levels: map<Name, nat>, needs: seq<Name>, top: nat)
    requires forall n :: n in needs ==> n in levels && levels[n] <= top
    ensures LevelAfter(levels, needs) <= top + 1
    ensures (exists n :: n in needs && levels[n] == top) ==> LevelAfter(levels, needs) == top + 1
  {
    if needs != [] {
      var rest, last := needs[..|needs| - 1], needs[|needs| - 1];
      assert needs == rest + [last];
      LevelIs(levels, rest, top);
    }
  }

  lemma {:induction false} LevelStays(levels: map<Name, nat>, levels': map<Name, nat>, needs: seq<Name>)
    requires forall n :: n in needs ==> n in levels && n in levels' && levels'[n] == levels[n]
    ensures LevelAfter(levels', needs) == LevelAfter(levels, needs)
  {
    if needs != [] {
      var rest, last := needs[..|needs| - 1], needs[|needs| - 1];
      assert needs == rest + [last];
      LevelStays(levels, levels', rest);
    }
  }

  /** Jobs that need nothing are the first wave. */
  lemma FirstLine(needs: map<Name, seq<Name>>, line: seq<Name>) returns (levels: map<Name, nat>)
    requires Distinct(line) && forall i :: 0 <= i < |line| ==> line[i] in needs && needs[line[i]] == []
    ensures WaveLine(needs, line, 0, levels)
  {
    levels := map n | n in line :: 0;
  }

  /** It needs the job at the front, and otherwise only jobs taken before. */
  ghost predicate Joins(needs: map<Name, seq<Name>>, line: seq<Name>, at: nat, d: Name)
    requires at < |line|
  {
    d in needs && d !in line && line[at] in needs[d] && forall n :: n in needs[d] ==> n in line[..at + 1]
  }

  lemma JoinLevel(needs: map<Name, seq<Name>>, line: seq<Name>, at: nat, levels: map<Name, nat>, d: Name)
    requires WaveLine(needs, line, at, levels) && at < |line| && Joins(needs, line, at, d)
    ensures (forall n :: n in needs[d] ==> n in levels && n in line)
    ensures LevelAfter(levels, needs[d]) == levels[line[at]] + 1
  {
    forall n | n in needs[d] ensures n in levels && levels[n] <= levels[line[at]] && n in line {
      var i :| 0 <= i < at + 1 && line[..at + 1][i] == n;
      assert line[i] == n;
    }
    LevelIs(levels, needs[d], levels[line[at]]);
  }

  /** The front is taken and those that waited for it join at the end. */
  lemma NextLine(needs: map<Name, seq<Name>>, line: seq<Name>, at: nat, more: seq<Name>, levels: map<Name, nat>)
    returns (levels': map<Name, nat>)
    requires WaveLine(needs, line, at, levels) && at < |line| && Distinct(line + more)
    requires forall i :: 0 <= i < |more| ==> Joins(needs, line, at, more[i])
    ensures WaveLine(needs, line + more, at + 1, levels')
  {
    hide Joins, Rising, IsLevelled, Distinct;
    levels' := LevelsOf(needs, line, at, more, levels);
    OldIsNotNew(line, more);
    RisingMore(needs, line, at, more, levels, levels');
    LevelledMore(needs, line, at, more, levels, levels');
  }

  lemma LevelsOf(needs: map<Name, seq<Name>>, line: seq<Name>, at: nat, more: seq<Name>, levels: map<Name, nat>)
    returns (levels': map<Name, nat>)
    requires WaveLine(needs, line, at, levels) && at < |line| && line[at] in levels
    ensures levels' == levels + map d | d in more :: levels[line[at]] + 1
    ensures levels'.Keys == set n | n in line + more
  {
    hide Rising, IsLevelled, Distinct;
    levels' := levels + map d | d in more :: levels[line[at]] + 1;
  }

  lemma OldIsNotNew(line: seq<Name>, more: seq<Name>)
    requires Distinct(line + more)
    ensures forall n :: n in line ==> n !in more
  {
    forall i, k | 0 <= i < |line| && 0 <= k < |more| ensures line[i] != more[k] {
      assert (line + more)[i] != (line + more)[|line| + k];
    }
  }

  lemma RisingMore(needs: map<Name, seq<Name>>, line: seq<Name>, at: nat, more: seq<Name>,
                   levels: map<Name, nat>, levels': map<Name, nat>)
    requires WaveLine(needs, line, at, levels) && at < |line|
    requires levels' == levels + map d | d in more :: levels[line[at]] + 1
    requires forall n :: n in line ==> n !in more
    ensures Rising(levels', line + more)
    ensures at + 1 < |line + more| ==>
      levels'[(line + more)[|line + more| - 1]] <= levels'[(line + more)[at + 1]] + 1
  {
    hide IsLevelled, Distinct;
    RisingLine(line, more, levels, levels', at);
  }

  lemma RisingLine(line: seq<Name>, more: seq<Name>, levels: map<Name, nat>, levels': map<Name, nat>, at: nat)
    requires Rising(levels, line) && at < |line| && levels[line[|line| - 1]] <= levels[line[at]] + 1
    requires forall i :: 0 <= i < |line| ==> line[i] in levels' && levels'[line[i]] == levels[line[i]]
    requires forall i :: 0 <= i < |more| ==> more[i] in levels' && levels'[more[i]] == levels[line[at]] + 1
    ensures Rising(levels', line + more)
    ensures at + 1 < |line + more| ==>
      levels'[(line + more)[|line + more| - 1]] <= levels'[(line + more)[at + 1]] + 1
  {
    var all, top := line + more, levels[line[at]];
    forall k | 0 <= k < |all| ensures all[k] in levels' && levels'[all[k]] <= top + 1 {
      if k < |line| {
        assert levels[line[k]] <= levels[line[|line| - 1]];
      }
    }
    forall k | 0 <= k < |all| ensures k >= |line| ==> levels'[all[k]] == top + 1 { }
    forall i, j | 0 <= i < j < |all| ensures levels'[all[i]] <= levels'[all[j]] { }
    if at + 1 < |line| {
      assert all[at + 1] == line[at + 1] && levels[line[at]] <= levels[line[at + 1]];
    }
  }

  lemma LevelledMore(needs: map<Name, seq<Name>>, line: seq<Name>, at: nat, more: seq<Name>,
                     levels: map<Name, nat>, levels': map<Name, nat>)
    requires WaveLine(needs, line, at, levels) && at < |line|
    requires forall k :: 0 <= k < |more| ==> Joins(needs, line, at, more[k])
    requires levels' == levels + map d | d in more :: levels[line[at]] + 1
    requires forall n :: n in line ==> n !in more
    ensures forall i :: 0 <= i < |line + more| ==>
      (line + more)[i] in needs && IsLevelled(levels', (line + more)[i], needs[(line + more)[i]])
  {
    hide WaveLine, Joins, LevelAfter;
    forall i | 0 <= i < |line + more|
      ensures (line + more)[i] in needs && IsLevelled(levels', (line + more)[i], needs[(line + more)[i]])
    {
      if i < |line| {
        OldLevelled(needs, line, at, more, levels, levels', i);
      } else {
        NewLevelled(needs, line, at, more, levels, levels', i - |line|);
      }
    }
  }

  lemma OldLevelled(needs: map<Name, seq<Name>>, line: seq<Name>, at: nat, more: seq<Name>,
                    levels: map<Name, nat>, levels': map<Name, nat>, i: nat)
    requires WaveLine(needs, line, at, levels) && at < |line| && i < |line|
    requires levels' == levels + map d | d in more :: levels[line[at]] + 1
    requires forall n :: n in line ==> n !in more
    ensures line[i] in needs && IsLevelled(levels', line[i], needs[line[i]])
  {
    LevelStays(levels, levels', needs[line[i]]);
  }

  lemma NewLevelled(needs: map<Name, seq<Name>>, line: seq<Name>, at: nat, more: seq<Name>,
                    levels: map<Name, nat>, levels': map<Name, nat>, k: nat)
    requires WaveLine(needs, line, at, levels) && at < |line| && k < |more| && Joins(needs, line, at, more[k])
    requires levels' == levels + map d | d in more :: levels[line[at]] + 1
    requires forall n :: n in line ==> n !in more
    ensures more[k] in needs && IsLevelled(levels', more[k], needs[more[k]])
  {
    JoinLevel(needs, line, at, levels, more[k]);
    LevelStays(levels, levels', needs[more[k]]);
  }
}
