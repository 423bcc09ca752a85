/** The player state kept by panpigo: the fields of the song being played
    and the list of stations, both maps from string to string, updated in
    place by `processPianobarOutput` and read back by `updateNewClient`
    when a client joins. */
module PlayerState {
  import opened Wrappers
  import opened GoStrings
  import opened StatusLine

  /** The five fields of `currentSong`. */
  const SongKeys: set<string> := {"artist", "title", "album", "coverArt", "stationName"}

  /** The two maps, as a value. */
  datatype Store = Store(currentSong: map<string, string>, stationList: map<string, string>)

  /** Every song field empty; one placeholder station "0" -> "Waiting". */
  const InitialStore: Store :=
    Store(map["artist" := "", "title" := "", "album" := "", "coverArt" := "", "stationName" := ""],
          map["0" := "Waiting"])

  /** What holds of every store the program reaches: the song has exactly
      its five fields and the placeholder key is still present. */
  ghost predicate Wellformed(s: Store) {
    s.currentSong.Keys == SongKeys && "0" in s.stationList
  }

  /** The store after one line, and the line sent on `piano_info`, if any. */
  datatype Step = Step(store: Store, emitted: Option<string>)

  /** The effect of one line of pianobar output: what the body of the
      reading loop does, or the panic it raises. */
  function Apply(s: Store, line: string): (r: Result<Step, Panic>)
    ensures r.Success? ==> r.value.store.currentSong.Keys == s.currentSong.Keys
    ensures r.Success? ==> s.stationList.Keys <= r.value.store.stationList.Keys
    ensures r.Success? && r.value.emitted.Some? ==>
              r.value.emitted.value == line && (Tag(line) == "timerem" || Tag(line) == "current")
    ensures r.Failure? ==> r.error == IndexOutOfRange(1, 1)
  {
    var event :- Parse(line);
    match event
    case TimeRemaining =>
      Success(Step(s, Some(line)))
    case Current(key, value) =>
      if key in s.currentSong then
        var v :- value;
        if v != s.currentSong[key] then
          Success(Step(s.(currentSong := s.currentSong[key := line]), Some(line)))
        else
          Success(Step(s, None))
      else
        Success(Step(s, None))
    case Station(key) =>
      if key != StationCountKey then
        Success(Step(s.(stationList := s.stationList[StationId(key) := line]), None))
      else
        Success(Step(s, None))
    case Other =>
      Success(Step(s, None))
  }

  /** The station list entry a line overwrites, if it is a station line. */
  function StationTarget(line: string): (id: Option<string>)
    ensures id.Some? ==> Tag(line) == "station"
  {
    match Parse(line)
    case Success(Station(key)) => if key != StationCountKey then Some(StationId(key)) else None
    case _ => None
  }

  /** Where the reading loop ends up after a sequence of lines: the final
      store, the lines sent on `piano_info` in order, and the panic that
      stopped it, if one did. */
  datatype Outcome = Outcome(store: Store, emitted: seq<string>, crash: Option<Panic>)

  function Prefixed(emitted: seq<string>, o: Outcome): Outcome {
    Outcome(o.store, emitted + o.emitted, o.crash)
  }

  /** The lines one step sends on. */
  function Sends(emitted: Option<string>): seq<string> {
    if emitted.Some? then [emitted.value] else []
  }

  function Run(s: Store, lines: seq<string>): (o: Outcome)
    ensures o.store.currentSong.Keys == s.currentSong.Keys
    ensures s.stationList.Keys <= o.store.stationList.Keys
    ensures |o.emitted| <= |lines|
    decreases |lines|
  {
    if lines == [] then Outcome(s, [], None)
    else
      match Apply(s, lines[0])
      case Failure(p) => Outcome(s, [], Some(p))
      case Success(step) =>
        var rest := Run(step.store, lines[1..]);
        Prefixed(Sends(step.emitted), rest)
  }

  /** Run, one line further on. */
  lemma RunUnfold(s: Store, lines: seq<string>, i: nat)
    requires i < |lines|
    ensures Apply(s, lines[i]).Failure? ==> Run(s, lines[i..]) == Outcome(s, [], Some(Apply(s, lines[i]).error))
    ensures Apply(s, lines[i]).Success? ==>
              var step := Apply(s, lines[i]).value;
              Run(s, lines[i..]) == Prefixed(Sends(step.emitted), Run(step.store, lines[i + 1..]))
  {
    assert lines[i..][0] == lines[i] && lines[i..][1..] == lines[i + 1..];
  }

  /** The loop's invariant carried over one line that did not panic. */
  lemma RunAdvance(s0: Store, lines: seq<string>, i: nat, emitted: seq<string>, before: Store, step: Step)
    requires i < |lines|
    requires Run(s0, lines) == Prefixed(emitted, Run(before, lines[i..]))
    requires Apply(before, lines[i]) == Success(step)
    ensures Run(s0, lines) == Prefixed(emitted + Sends(step.emitted), Run(step.store, lines[i + 1..]))
  {
    RunUnfold(before, lines, i);
    var rest := Run(step.store, lines[i + 1..]);
    assert emitted + (Sends(step.emitted) + rest.emitted) == (emitted + Sends(step.emitted)) + rest.emitted;
  }

  /** The loop's invariant at a line that panics. */
  lemma RunHalt(s0: Store, lines: seq<string>, i: nat, emitted: seq<string>, before: Store, p: Panic)
    requires i < |lines|
    requires Run(s0, lines) == Prefixed(emitted, Run(before, lines[i..]))
    requires Apply(before, lines[i]) == Failure(p)
    ensures Run(s0, lines) == Outcome(before, emitted, Some(p))
  {
    RunUnfold(before, lines, i);
    assert emitted + [] == emitted;
  }

  // ---------------------------------------------------------------------
  // One line at a time

  /** A `timerem` line is passed on verbatim and changes nothing. */
  lemma ApplyTimerem(s: Store, line: string, rest: string)
    requires line == "timerem" + rest && Delimits("timerem", rest, '\t')
    ensures Apply(s, line) == Success(Step(s, Some(line)))
  {
    ParseTimerem(line, rest);
  }

  /** A line with an unknown tag changes nothing and is not passed on. */
  lemma ApplyOtherTag(s: Store, line: string, tag: string, rest: string)
    requires line == tag + rest && Delimits(tag, rest, '\t')
    requires tag != "timerem" && tag != "current" && tag != "station"
    ensures Apply(s, line) == Success(Step(s, None))
  {
    ParseOther(line, tag, rest);
  }

  /** A `current` line whose value differs from what is stored under a
      known key stores the WHOLE line under that key, leaves every other
      entry alone, and is passed on once. */
  lemma ApplyCurrentChanged(s: Store, line: string, key: string, value: string, more: string, tail: string)
    requires Shaped(line, "current", key + "=" + value + more, tail)
    requires Delimits(key, "=" + value + more, '=') && Delimits(value, more, '=')
    requires key in s.currentSong && value != s.currentSong[key]
    ensures Apply(s, line) == Success(Step(Store(s.currentSong[key := line], s.stationList), Some(line)))
  {
    ParseCurrentValue(line, key, value, more, tail);
  }

  /** A `current` line whose value equals what is stored is dropped. */
  lemma ApplyCurrentSame(s: Store, line: string, key: string, value: string, more: string, tail: string)
    requires Shaped(line, "current", key + "=" + value + more, tail)
    requires Delimits(key, "=" + value + more, '=') && Delimits(value, more, '=')
    requires key in s.currentSong && value == s.currentSong[key]
    ensures Apply(s, line) == Success(Step(s, None))
  {
    ParseCurrentValue(line, key, value, more, tail);
  }

  /** Once a song field holds a whole `current` line (which has an '='),
      no bare value can equal it: every valued line for that key counts as
      a change, however often the same value is repeated. */
  lemma ApplyCurrentAfterUpdate(s: Store, line: string, key: string, value: string, more: string, tail: string)
    requires Shaped(line, "current", key + "=" + value + more, tail)
    requires Delimits(key, "=" + value + more, '=') && Delimits(value, more, '=')
    requires key in s.currentSong && '=' in s.currentSong[key]
    ensures Apply(s, line) == Success(Step(Store(s.currentSong[key := line], s.stationList), Some(line)))
  {
    assert value != s.currentSong[key];
    ApplyCurrentChanged(s, line, key, value, more, tail);
  }

  /** The same `current` line twice in a row is passed on twice, unless its
      value equals the stored one (only possible before the first update,
      when the field is still ""), in which case both are dropped. A line
      is never dropped as a repeat of itself. */
  lemma RunRepeatedCurrent(s: Store, line: string, key: string, value: string, more: string, tail: string)
    requires Shaped(line, "current", key + "=" + value + more, tail)
    requires Delimits(key, "=" + value + more, '=') && Delimits(value, more, '=')
    requires key in s.currentSong
    ensures Run(s, [line, line]).emitted == if value == s.currentSong[key] then [] else [line, line]
  {
    if value == s.currentSong[key] {
      ApplyCurrentSame(s, line, key, value, more, tail);
      RunPair(s, line, line, Step(s, None), Step(s, None));
    } else {
      RunChangedTwice(s, line, key, value, more, tail);
    }
  }

  lemma RunChangedTwice(s: Store, line: string, key: string, value: string, more: string, tail: string)
    requires Shaped(line, "current", key + "=" + value + more, tail)
    requires Delimits(key, "=" + value + more, '=') && Delimits(value, more, '=')
    requires key in s.currentSong && value != s.currentSong[key]
    ensures Run(s, [line, line]).emitted == [line, line]
  {
    var s1 := Store(s.currentSong[key := line], s.stationList);
    ChangedThenChangedAgain(s, line, key, value, more, tail);
    RunPair(s, line, line, Step(s1, Some(line)), Step(Store(s1.currentSong[key := line], s1.stationList), Some(line)));
  }

  lemma ChangedThenChangedAgain(s: Store, line: string, key: string, value: string, more: string, tail: string)
    requires Shaped(line, "current", key + "=" + value + more, tail)
    requires Delimits(key, "=" + value + more, '=') && Delimits(value, more, '=')
    requires key in s.currentSong && value != s.currentSong[key]
    ensures var s1 := Store(s.currentSong[key := line], s.stationList);
            Apply(s, line) == Success(Step(s1, Some(line))) &&
            Apply(s1, line) == Success(Step(Store(s1.currentSong[key := line], s1.stationList), Some(line)))
  {
    ApplyCurrentChanged(s, line, key, value, more, tail);
    var s1 := Store(s.currentSong[key := line], s.stationList);
    ShapedHasEquals(line, key, value + more, tail);
    ApplyCurrentAfterUpdate(s1, line, key, value, more, tail);
  }

  lemma ShapedHasEquals(line: string, key: string, after: string, tail: string)
    requires Shaped(line, "current", key + "=" + after, tail)
    ensures '=' in line
  {
    assert line[8 + |key|] == '=';
  }

  /** Two lines that do not panic emit what their two steps emit. */
  lemma RunPair(s: Store, a: string, b: string, first: Step, second: Step)
    requires Apply(s, a) == Success(first) && Apply(first.store, b) == Success(second)
    ensures Run(s, [a, b]).emitted == Sends(first.emitted) + Sends(second.emitted)
  {
    assert [a, b][0] == a && [a, b][1..] == [b] && [b][1..] == [];
    assert Run(second.store, []).emitted == [];
  }

  /** A `current` line with a key that is not a song field is dropped,
      even without any '=' (the value is never looked at). */
  lemma ApplyCurrentUnknownKey(s: Store, line: string, key: string, rest: string, tail: string)
    requires Shaped(line, "current", key + rest, tail) && Delimits(key, rest, '=')
    requires key !in s.currentSong
    ensures Apply(s, line) == Success(Step(s, None))
  {
    ParseCurrentKey(line, key, rest, tail);
  }

  /** A `current` line naming a song field without any '=' panics. */
  lemma ApplyCurrentNoValue(s: Store, line: string, key: string, tail: string)
    requires Shaped(line, "current", key, tail) && '=' !in key
    requires key in s.currentSong
    ensures Apply(s, line) == Failure(IndexOutOfRange(1, 1))
  {
    ParseCurrentNoValue(line, key, tail);
  }

  /** A `current` or `station` line without a tab panics. */
  lemma ApplyMissingField(s: Store, line: string)
    requires line == "current" || line == "station"
    ensures Apply(s, line) == Failure(IndexOutOfRange(1, 1))
  {
    ParseMissingField(line);
  }

  /** The `stationCount` line changes nothing. */
  lemma ApplyStationCount(s: Store, line: string, rest: string, tail: string)
    requires Shaped(line, "station", StationCountKey + rest, tail) && Delimits(StationCountKey, rest, '=')
    ensures Apply(s, line) == Success(Step(s, None))
  {
    ParseStation(line, StationCountKey, rest, tail);
  }

  /** Any other `station` line stores the WHOLE line under the derived id,
      leaves every other entry alone, and is not passed on. */
  lemma ApplyStation(s: Store, line: string, key: string, rest: string, tail: string)
    requires Shaped(line, "station", key + rest, tail) && Delimits(key, rest, '=')
    requires key != StationCountKey
    ensures Apply(s, line) == Success(Step(Store(s.currentSong, s.stationList[StationId(key) := line]), None))
  {
    ParseStation(line, key, rest, tail);
  }

  /** The station list changes only at the entry a station line targets. */
  lemma ApplyStationEffect(s: Store, line: string)
    requires Apply(s, line).Success?
    ensures Apply(s, line).value.store.stationList ==
              if StationTarget(line).Some? then s.stationList[StationTarget(line).value := line]
              else s.stationList
  {
  }

  // ---------------------------------------------------------------------
  // Whole runs

  /** The invariant holds of every store reachable from the initial one. */
  lemma RunWellformed(lines: seq<string>)
    ensures Wellformed(InitialStore)
    ensures Wellformed(Run(InitialStore, lines).store)
  {
    assert InitialStore.currentSong.Keys == SongKeys;
  }

  /** Everything passed on during a run is one of its input lines, and a
      `timerem` or `current` line. */
  lemma {:induction false} RunEmitsInputLines(s: Store, lines: seq<string>, e: string)
    requires e in Run(s, lines).emitted
    ensures e in lines
    ensures Tag(e) == "timerem" || Tag(e) == "current"
    decreases |lines|
  {
    var step := Apply(s, lines[0]).value;
    if e !in Sends(step.emitted) {
      RunEmitsInputLines(step.store, lines[1..], e);
      assert lines == [lines[0]] + lines[1..];
    }
  }

  /** `a` can be had from `b` by dropping elements: its elements appear in
      `b` in the same order. */
  predicate Subsequence(a: seq<string>, b: seq<string>)
    decreases |b|
  {
    a == [] || (b != [] && ((a[0] == b[0] && Subsequence(a[1..], b[1..])) || Subsequence(a, b[1..])))
  }

  /** Lines are passed on in the order they were read: what a run emits
      is a subsequence of its input. */
  lemma {:induction false} RunEmitsInOrder(s: Store, lines: seq<string>)
    ensures Subsequence(Run(s, lines).emitted, lines)
    decreases |lines|
  {
    if lines != [] && Apply(s, lines[0]).Success? {
      var step := Apply(s, lines[0]).value;
      var rest := Run(step.store, lines[1..]).emitted;
      RunEmitsInOrder(step.store, lines[1..]);
      var e := Run(s, lines).emitted;
      assert e == Sends(step.emitted) + rest;
      if step.emitted.Some? {
        assert e == [lines[0]] + rest;
        assert e != [] && e[0] == lines[0] && e[1..] == rest;
      } else {
        assert e == rest;
      }
    }
  }

  /** An entry that no line targets keeps its value. */
  lemma {:induction false} RunKeepsStation(s: Store, lines: seq<string>, id: string)
    requires id in s.stationList
    requires forall i :: 0 <= i < |lines| ==> StationTarget(lines[i]) != Some(id)
    ensures id in Run(s, lines).store.stationList
    ensures Run(s, lines).store.stationList[id] == s.stationList[id]
    decreases |lines|
  {
    if lines != [] && Apply(s, lines[0]).Success? {
      var step := Apply(s, lines[0]).value;
      ApplyStationEffect(s, lines[0]);
      assert StationTarget(lines[0]) != Some(id);
      RunKeepsStation(step.store, lines[1..], id);
    }
  }

  /** The placeholder "0" -> "Waiting" survives until a line targets "0". */
  lemma RunKeepsPlaceholder(lines: seq<string>)
    requires forall i :: 0 <= i < |lines| ==> StationTarget(lines[i]) != Some("0")
    ensures Run(InitialStore, lines).store.stationList["0"] == "Waiting"
  {
    RunKeepsStation(InitialStore, lines, "0");
  }

  /** Last write wins: after a run that did not panic, a station entry holds
      the last line that targeted it. */
  lemma {:induction false} RunLastWriteWins(s: Store, before: seq<string>, line: string, after: seq<string>, id: string)
    requires StationTarget(line) == Some(id)
    requires forall i :: 0 <= i < |after| ==> StationTarget(after[i]) != Some(id)
    requires Run(s, before + [line] + after).crash.None?
    ensures id in Run(s, before + [line] + after).store.stationList
    ensures Run(s, before + [line] + after).store.stationList[id] == line
    decreases |before|
  {
    var lines := before + [line] + after;
    assert lines[0] == (if before == [] then line else before[0]);
    var step := Apply(s, lines[0]).value;
    if before == [] {
      assert lines[1..] == after;
      ApplyStationEffect(s, line);
      RunKeepsStation(step.store, after, id);
    } else {
      assert lines[1..] == before[1..] + [line] + after;
      RunLastWriteWins(step.store, before[1..], line, after, id);
    }
  }

  // ---------------------------------------------------------------------
  // The state as pianobar's output changes it

  /** The two global maps of panpigo.go. */
  class StatusProcessor {
    var currentSong: map<string, string>
    var stationList: map<string, string>

    function State(): Store
      reads this
    {
      Store(currentSong, stationList)
    }

    ghost predicate Valid()
      reads this
    {
      Wellformed(State())
    }

    constructor ()
      ensures State() == InitialStore && Valid()
    {
      currentSong := map["artist" := "", "title" := "", "album" := "", "coverArt" := "", "stationName" := ""];
      stationList := map["0" := "Waiting"];
    }

    /** One pass of the reading loop: update the maps and return the line
        to pass on, or the panic. */
    method ProcessLine(line: string) returns (r: Result<Option<string>, Panic>)
      requires Valid()
      modifies this
      ensures Valid()
      ensures currentSong.Keys == old(currentSong.Keys) && old(stationList.Keys) <= stationList.Keys
      ensures r.Failure? ==> Apply(old(State()), line) == Failure(r.error) && State() == old(State())
      ensures r.Success? ==> Apply(old(State()), line) == Success(Step(State(), r.value))
    {
      var parsed := Parse(line);
      if parsed.Failure? {
        return Failure(parsed.error);
      }
      match parsed.value
      case TimeRemaining =>
        r := Success(Some(line));
      case Current(key, value) =>
        r := Success(None);
        if key in currentSong {
          if value.Failure? {
            return Failure(value.error);
          }
          if value.value != currentSong[key] {
            currentSong := currentSong[key := line];
            r := Success(Some(line));
          }
        }
      case Station(key) =>
        if key != StationCountKey {
          stationList := stationList[StationId(key) := line];
        }
        r := Success(None);
      case Other =>
        r := Success(None);
    }

    /** The reading loop over the lines pianobar writes before end of
        stream; a panic stops it. */
    method ProcessOutput(lines: seq<string>) returns (emitted: seq<string>, crash: Option<Panic>)
      requires Valid()
      modifies this
      ensures Valid()
      ensures Run(old(State()), lines) == Outcome(State(), emitted, crash)
    {
      emitted, crash := [], None;
      var i := 0;
      while i < |lines|
        invariant 0 <= i <= |lines|
        invariant Valid()
        invariant Run(old(State()), lines) == Prefixed(emitted, Run(State(), lines[i..]))
      {
        ghost var before := State();
        var r := ProcessLine(lines[i]);
        if r.Failure? {
          RunHalt(old(State()), lines, i, emitted, before, r.error);
          crash := Some(r.error);
          return;
        }
        RunAdvance(old(State()), lines, i, emitted, before, Step(State(), r.value));
        emitted := emitted + Sends(r.value);
        i := i + 1;
      }
      assert lines[i..] == [];
    }

    /** What `updateNewClient` sends a joining client: every song value,
        then every station value, each block in the maps' (unspecified)
        order. `failed` holds the positions whose send fails: such a
        failure is logged and the remaining sends still happen. */
    method Snapshot(failed: set<nat>) returns (sent: seq<string>, delivered: seq<string>)
      requires Valid()
      ensures |currentSong| == 5
      ensures |sent| == |currentSong| + |stationList|
      ensures multiset(sent[..|currentSong|]) == Bag(currentSong, currentSong.Keys)
      ensures multiset(sent[|currentSong|..]) == Bag(stationList, stationList.Keys)
      ensures delivered == Kept(sent, failed, 0)
    {
      var songSent, songDelivered := SendValues(currentSong, failed, 0);
      var stationSent, stationDelivered := SendValues(stationList, failed, |songSent|);
      sent := songSent + stationSent;
      delivered := songDelivered + stationDelivered;
      KeptConcat(songSent, stationSent, songDelivered, stationDelivered, failed);
      SplitConcat(songSent, stationSent);
      SongBlockSize(currentSong);
    }
  }

  // ---------------------------------------------------------------------
  // Snapshots

  lemma SplitConcat(a: seq<string>, b: seq<string>)
    ensures (a + b)[..|a|] == a && (a + b)[|a|..] == b
  {
  }

  /** The values of `m` under `keys`, with repetitions. */
  ghost function Bag(m: map<string, string>, keys: set<string>): (b: multiset<string>)
    requires keys <= m.Keys
    ensures |b| == |keys|
    decreases keys
  {
    if keys == {} then multiset{}
    else
      var k :| k in keys;
      multiset{m[k]} + Bag(m, keys - {k})
  }

  /** Bag can be taken apart at any key, not just the one it chose. */
  lemma {:induction false} BagRemove(m: map<string, string>, keys: set<string>, k: string)
    requires keys <= m.Keys && k in keys
    ensures Bag(m, keys) == multiset{m[k]} + Bag(m, keys - {k})
    decreases keys
  {
    var j :| j in keys && Bag(m, keys) == multiset{m[j]} + Bag(m, keys - {j});
    if j != k {
      BagRemove(m, keys - {j}, k);
      BagRemove(m, keys - {k}, j);
      assert keys - {j} - {k} == keys - {k} - {j};
    }
  }

  /** A value is in the bag exactly when some key maps to it. */
  lemma {:induction false} BagMembers(m: map<string, string>, keys: set<string>, v: string)
    requires keys <= m.Keys
    ensures v in Bag(m, keys) <==> exists k :: k in keys && m[k] == v
    decreases keys
  {
    if keys != {} {
      var j :| j in keys && Bag(m, keys) == multiset{m[j]} + Bag(m, keys - {j});
      BagMembers(m, keys - {j}, v);
    }
  }

  /** When every key maps to `v`, the bag is `v` once per key. */
  lemma {:induction false} BagConstant(m: map<string, string>, keys: set<string>, v: string)
    requires keys <= m.Keys
    requires forall k :: k in keys ==> m[k] == v
    ensures Bag(m, keys)[v] == |keys|
    decreases keys
  {
    if keys != {} {
      var j :| j in keys && Bag(m, keys) == multiset{m[j]} + Bag(m, keys - {j});
      BagConstant(m, keys - {j}, v);
    }
  }

  /** The messages at positions from `first` on that are not in `failed`:
      what the client actually receives. */
  function Kept(sent: seq<string>, failed: set<nat>, first: nat): (d: seq<string>)
    ensures |d| <= |sent|
    decreases |sent|
  {
    if sent == [] then []
    else
      (if first in failed then [] else [sent[0]]) + Kept(sent[1..], failed, first + 1)
  }

  lemma {:induction false} KeptAppend(a: seq<string>, b: seq<string>, failed: set<nat>, first: nat)
    ensures Kept(a + b, failed, first) == Kept(a, failed, first) + Kept(b, failed, first + |a|)
    decreases |a|
  {
    if a != [] {
      var head := if first in failed then [] else [a[0]];
      assert (a + b)[0] == a[0] && (a + b)[1..] == a[1..] + b;
      assert Kept(a + b, failed, first) == head + Kept(a[1..] + b, failed, first + 1);
      KeptAppend(a[1..], b, failed, first + 1);
      assert Kept(a, failed, first) == head + Kept(a[1..], failed, first + 1);
    } else {
      assert a + b == b;
    }
  }

  lemma KeptConcat(a: seq<string>, b: seq<string>, da: seq<string>, db: seq<string>, failed: set<nat>)
    requires da == Kept(a, failed, 0) && db == Kept(b, failed, |a|)
    ensures da + db == Kept(a + b, failed, 0)
  {
    KeptAppend(a, b, failed, 0);
  }

  /** Every message whose send did not fail is delivered: a failure does
      not stop the sends after it. */
  /** The message at position `i` is delivered exactly when its send did
      not fail; the messages before and after it are delivered as if it
      were not there. */
  lemma KeptAt(sent: seq<string>, failed: set<nat>, first: nat, i: nat)
    requires i < |sent|
    ensures Kept(sent, failed, first) ==
              Kept(sent[..i], failed, first) + (if first + i in failed then [] else [sent[i]]) +
              Kept(sent[i + 1..], failed, first + i + 1)
  {
    var after := [sent[i]] + sent[i + 1..];
    assert sent == sent[..i] + after;
    KeptAppend(sent[..i], after, failed, first);
    assert after[0] == sent[i] && after[1..] == sent[i + 1..];
  }

  lemma {:induction false} KeptDelivers(sent: seq<string>, failed: set<nat>, first: nat, i: nat)
    requires i < |sent| && first + i !in failed
    ensures sent[i] in Kept(sent, failed, first)
    decreases |sent|
  {
    if i > 0 {
      KeptDelivers(sent[1..], failed, first + 1, i - 1);
    }
  }

  /** Without failures everything is delivered, in order. */
  lemma {:induction false} KeptNoFailures(sent: seq<string>, failed: set<nat>, first: nat)
    requires forall i :: first <= i < first + |sent| ==> i !in failed
    ensures Kept(sent, failed, first) == sent
    decreases |sent|
  {
    if sent != [] {
      KeptNoFailures(sent[1..], failed, first + 1);
      assert sent == [sent[0]] + sent[1..];
    }
  }

  /** One `for _, value := range m { Message.Send(...) }` loop: sends every
      value of `m` once, in an order the map chooses; send number `first + j`
      fails when it is in `failed`, and the loop carries on regardless. */
  method SendValues(m: map<string, string>, failed: set<nat>, first: nat) returns (sent: seq<string>, delivered: seq<string>)
    ensures |sent| == |m|
    ensures multiset(sent) == Bag(m, m.Keys)
    ensures delivered == Kept(sent, failed, first)
  {
    sent, delivered := [], [];
    var remaining := m.Keys;
    while remaining != {}
      invariant remaining <= m.Keys
      invariant |sent| + |remaining| == |m|
      invariant multiset(sent) + Bag(m, remaining) == Bag(m, m.Keys)
      invariant delivered == Kept(sent, failed, first)
      decreases |remaining|
    {
      var k :| k in remaining;
      var value := m[k];
      SendStep(m, remaining, k, sent, delivered, failed, first);
      if first + |sent| !in failed {
        delivered := delivered + [value];
      }
      sent := sent + [value];
      remaining := remaining - {k};
    }
  }

  /** The invariants of SendValues carried over one send. */
  lemma SendStep(m: map<string, string>, remaining: set<string>, k: string,
                 sent: seq<string>, delivered: seq<string>, failed: set<nat>, first: nat)
    requires k in remaining && remaining <= m.Keys
    requires delivered == Kept(sent, failed, first)
    ensures multiset(sent + [m[k]]) + Bag(m, remaining - {k}) == multiset(sent) + Bag(m, remaining)
    ensures Kept(sent + [m[k]], failed, first) ==
              if first + |sent| in failed then delivered else delivered + [m[k]]
  {
    BagRemove(m, remaining, k);
    KeptAppend(sent, [m[k]], failed, first);
    assert Kept([m[k]], failed, first + |sent|) ==
             (if first + |sent| in failed then [] else [m[k]]) + Kept([], failed, first + |sent| + 1);
  }

  /** A client joining before any update gets five empty song values and
      then "Waiting". */
  lemma InitialSnapshot()
    ensures |Bag(InitialStore.currentSong, SongKeys)| == 5
    ensures Bag(InitialStore.currentSong, SongKeys)[""] == 5
    ensures Bag(InitialStore.stationList, {"0"}) == multiset{"Waiting"}
  {
    SongKeysCount();
    BagConstant(InitialStore.currentSong, SongKeys, "");
    BagRemove(InitialStore.stationList, {"0"}, "0");
  }

  lemma SongKeysCount()
    ensures InitialStore.currentSong.Keys == SongKeys && |SongKeys| == 5
  {
  }

  /** A song map with exactly the five song keys has five entries. */
  lemma SongBlockSize(m: map<string, string>)
    requires m.Keys == SongKeys
    ensures |m| == 5
  {
    SongKeysCount();
    assert |m| == |m.Keys|;
  }

  // ---------------------------------------------------------------------
  // Worked examples

  /** `current\tartist=Radiohead` on the initial store: the artist entry
      becomes the whole line and the line is passed on. */
  lemma ArtistExample(line: string)
    requires line == "current\tartist=Radiohead"
    ensures Apply(InitialStore, line) ==
              Success(Step(Store(InitialStore.currentSong["artist" := line], InitialStore.stationList), Some(line)))
  {
    assert line == "current" + "\t" + ("artist" + "=" + "Radiohead" + []) + [];
    assert "artist" + "=" + "Radiohead" + [] == "artist" + "=" + "Radiohead";
    ApplyCurrentChanged(InitialStore, line, "artist", "Radiohead", [], []);
  }

  /** `station\tstation7=My Station`: entry "7" becomes the whole line,
      nothing is passed on. */
  lemma StationExample(line: string, key: string, id: string)
    requires id == "7" && key == StationWord + id && line == "station\t" + key + "=My Station"
    ensures Apply(InitialStore, line) ==
              Success(Step(Store(InitialStore.currentSong, InitialStore.stationList[id := line]), None))
  {
    assert line == "station" + "\t" + (key + "=My Station") + [];
    ApplyStation(InitialStore, line, key, "=My Station", []);
    ShortIdIsPlain(id);
    StationIdOfPrefixed(id);
  }

  lemma ShortIdIsPlain(id: string)
    requires |id| < |StationWord|
    ensures !Contains(id, StationWord)
  {
  }

}
