/** Decoding one line of pianobar's tab-separated status output
    (the `strings.Split` calls of `processPianobarOutput`). */
module StatusLine {
  import opened Wrappers
  import opened GoStrings

  /** What a line asks of the state store. A `current` line carries its key
      and the result of looking up its value: Go only evaluates
      `myCurrent[1]` when the key is known, so the lookup's panic is kept
      here unevaluated and raised by the store. */
  datatype Event =
    | TimeRemaining
    | Current(key: string, value: Result<string, Panic>)
    | Station(key: string)
    | Other

  /** The key pianobar uses for the number of stations; it is not a station. */
  const StationCountKey: string := "stationCount"

  /** The literal every occurrence of which is deleted from a station key. */
  const StationWord: string := "station"

  /** The first tab field of a line: the switch tag. */
  function Tag(line: string): (t: string)
    ensures '\t' !in t && t <= line
  {
    JoinSplit(line, '\t');
    Split(line, '\t')[0]
  }

  /** The event a status line stands for, or the panic raised by indexing
      its second tab field when there is none. */
  function Parse(line: string): (r: Result<Event, Panic>)
    ensures r.Failure? <==> (Tag(line) == "current" || Tag(line) == "station") && '\t' !in line
    ensures r.Failure? ==> r.error == IndexOutOfRange(1, 1)
    ensures r == Success(TimeRemaining) <==> Tag(line) == "timerem"
    ensures r.Success? && r.value.Current? ==> Tag(line) == "current"
    ensures r.Success? && r.value.Current? && r.value.value.Failure? ==>
              r.value.value.error == IndexOutOfRange(1, 1)
    ensures r.Success? && r.value.Current? ==>
              |Split(line, '\t')| >= 2 && (r.value.value.Failure? <==> '=' !in Split(line, '\t')[1])
    ensures r.Success? && r.value.Station? ==> Tag(line) == "station"
    ensures r == Success(Other) <==> Tag(line) !in {"timerem", "current", "station"}
  {
    var fields := Split(line, '\t');
    SplitCount(line, '\t');
    if fields[0] == "timerem" then
      Success(TimeRemaining)
    else if fields[0] == "current" then
      var field :- Field(fields, 1);
      var pair := Split(field, '=');
      SplitCount(field, '=');
      Success(Current(pair[0], Field(pair, 1)))
    else if fields[0] == "station" then
      var field :- Field(fields, 1);
      Success(Station(Split(field, '=')[0]))
    else
      Success(Other)
  }

  /** The station list key derived from a `station` line's key: every
      occurrence of "station" deleted, not only a leading one. */
  function StationId(key: string): (id: string)
    ensures |id| <= |key|
  {
    RemoveAll(key, StationWord)
  }

  /** A line whose first field is `tag` followed by the second field
      `field` and then `tail` (the end of the line or another tab). */
  predicate Shaped(line: string, tag: string, field: string, tail: string) {
    line == tag + "\t" + field + tail && '\t' !in tag && Delimits(field, tail, '\t')
  }

  /** The fields of a shaped line start with its tag and its field. */
  lemma ShapedFields(line: string, tag: string, field: string, tail: string)
    requires Shaped(line, tag, field, tail)
    ensures Tag(line) == tag
    ensures |Split(line, '\t')| >= 2 && Split(line, '\t')[1] == field
  {
    SplitTwoFields(tag, field, tail, '\t');
  }

  /** Splitting `key + rest` on '=' when `key` is the whole first piece. */
  lemma KeyValueFields(field: string, key: string, rest: string)
    requires field == key + rest && Delimits(key, rest, '=')
    ensures Split(field, '=')[0] == key
    ensures rest == [] ==> |Split(field, '=')| == 1
    ensures rest != [] ==> |Split(field, '=')| >= 2 && Split(field, '=')[1] == Split(rest[1..], '=')[0]
  {
    SplitDelimited(key, rest, '=');
  }

  /** A line whose first field is `timerem` is a time update, with or
      without further fields. */
  lemma ParseTimerem(line: string, rest: string)
    requires line == "timerem" + rest && Delimits("timerem", rest, '\t')
    ensures Parse(line) == Success(TimeRemaining)
  {
    SplitDelimited("timerem", rest, '\t');
  }

  /** A line with any other first field than the three known tags is ignored. */
  lemma ParseOther(line: string, tag: string, rest: string)
    requires line == tag + rest && Delimits(tag, rest, '\t')
    requires tag != "timerem" && tag != "current" && tag != "station"
    ensures Parse(line) == Success(Other)
  {
    SplitDelimited(tag, rest, '\t');
  }

  /** `current\t<key>=<value>...`: the value is the text between the first
      and the second '=' of the second field. */
  lemma ParseCurrentValue(line: string, key: string, value: string, more: string, tail: string)
    requires Shaped(line, "current", key + "=" + value + more, tail)
    requires Delimits(key, "=" + value + more, '=') && Delimits(value, more, '=')
    ensures Parse(line) == Success(Current(key, Success(value)))
  {
    var field := key + "=" + value + more;
    ShapedFields(line, "current", field, tail);
    assert field == key + ("=" + value + more);
    KeyValueFields(field, key, "=" + value + more);
    assert ("=" + value + more)[1..] == value + more;
    SplitDelimited(value, more, '=');
  }

  /** `current\t<key>[=...]`: the key is the second field up to the first '='. */
  lemma ParseCurrentKey(line: string, key: string, rest: string, tail: string)
    requires Shaped(line, "current", key + rest, tail) && Delimits(key, rest, '=')
    ensures Parse(line).Success? && Parse(line).value.Current? && Parse(line).value.key == key
  {
    ShapedFields(line, "current", key + rest, tail);
    KeyValueFields(key + rest, key, rest);
  }

  /** A `current` or `station` line with no tab has no second field:
      indexing it panics. */
  lemma ParseMissingField(line: string)
    requires line == "current" || line == "station"
    ensures Parse(line) == Failure(IndexOutOfRange(1, 1))
  {
    SplitDelimited(line, [], '\t');
    assert line + [] == line;
  }

  /** `current\t<key>` without any '=': the key is the whole field and
      looking up the value would panic. */
  lemma ParseCurrentNoValue(line: string, key: string, tail: string)
    requires Shaped(line, "current", key, tail) && '=' !in key
    ensures Parse(line) == Success(Current(key, Failure(IndexOutOfRange(1, 1))))
  {
    ShapedFields(line, "current", key, tail);
    assert key + [] == key;
    KeyValueFields(key, key, []);
  }

  /** `station\t<key>[=...]`: the key is the second field up to the first '='. */
  lemma ParseStation(line: string, key: string, rest: string, tail: string)
    requires Shaped(line, "station", key + rest, tail) && Delimits(key, rest, '=')
    ensures Parse(line) == Success(Station(key))
  {
    ShapedFields(line, "station", key + rest, tail);
    KeyValueFields(key + rest, key, rest);
  }

  /** The keys pianobar writes, `station<id>`, give back `<id>`. */
  lemma StationIdOfPrefixed(id: string)
    requires !Contains(id, StationWord)
    ensures StationId(StationWord + id) == id
  {
    RemoveAllLeading(id, StationWord);
    RemoveAllAbsent(id, StationWord);
  }

  /** A key without the word "station" is used unchanged. */
  lemma StationIdPlain(key: string)
    requires !Contains(key, StationWord)
    ensures StationId(key) == key
  {
    RemoveAllAbsent(key, StationWord);
  }

  /** The scan deletes an occurrence wherever it stands: text `a` in which
      no occurrence starts (not even one running into the word after it)
      is kept, the word is deleted, and the scan goes on in `b`. */
  lemma {:induction false} StationIdSkipsWord(a: string, b: string)
    requires !Contains(a + StationWord[..6], StationWord)
    ensures StationId(a + StationWord + b) == a + StationId(b)
    decreases |a|
  {
    if a == [] {
      SkipsWordAtHead(a, b);
    } else {
      NoWordInTail(a);
      StationIdSkipsWord(a[1..], b);
      KeepsFirst(a, b);
    }
  }

  lemma SkipsWordAtHead(a: string, b: string)
    requires a == []
    ensures StationId(a + StationWord + b) == a + StationId(b)
  {
    assert a + StationWord + b == StationWord + b;
    RemoveAllLeading(b, StationWord);
  }

  /** No occurrence starts at the head of `a + StationWord + b`, so its
      first character is kept and the scan goes on one character later. */
  lemma KeepsFirst(a: string, b: string)
    requires a != [] && !Contains(a + StationWord[..6], StationWord)
    requires StationId(a[1..] + StationWord + b) == a[1..] + StationId(b)
    ensures StationId(a + StationWord + b) == a + StationId(b)
  {
    var s := a + StationWord + b;
    var p := a + StationWord[..6];
    assert !OccursAt(p, StationWord, 0);
    assert s[..7] == p[..7];
    assert s[1..] == a[1..] + StationWord + b;
    assert [a[0]] + (a[1..] + StationId(b)) == a + StationId(b);
  }

  /** Dropping the first character keeps `a` free of occurrences. */
  lemma NoWordInTail(a: string)
    requires a != [] && !Contains(a + StationWord[..6], StationWord)
    ensures !Contains(a[1..] + StationWord[..6], StationWord)
  {
    var p := a + StationWord[..6];
    var q := a[1..] + StationWord[..6];
    assert q == p[1..];
    forall i: nat | i <= |q| && OccursAt(q, StationWord, i)
      ensures false
    {
      assert q[i..i + 7] == p[i + 1..i + 8];
      assert OccursAt(p, StationWord, i + 1);
    }
  }

  /** A key with the word on both sides of an id keeps only the id. */
  lemma StationIdBetweenWords(id: string)
    requires !Contains(id + StationWord[..6], StationWord)
    ensures StationId(StationWord + id + StationWord) == id
  {
    LeadingWordDropped(id + StationWord);
    assert StationWord + id + StationWord == StationWord + (id + StationWord);
    TrailingWordDropped(id);
  }

  lemma LeadingWordDropped(t: string)
    ensures StationId(StationWord + t) == StationId(t)
  {
    RemoveAllLeading(t, StationWord);
  }

  lemma TrailingWordDropped(id: string)
    requires !Contains(id + StationWord[..6], StationWord)
    ensures StationId(id + StationWord) == id
  {
    StationIdSkipsWord(id, []);
    assert id + StationWord + [] == id + StationWord;
  }

  /** Every occurrence is deleted: the key "station1station" gives "1",
      where deleting only the leading word would give "1station". */
  lemma StationIdRemovesEveryOccurrence(key: string, one: string)
    requires one == "1" && key == StationWord + one + StationWord
    ensures StationId(key) == one
  {
    NoWordBefore(one);
    StationIdBetweenWords(one);
  }

  lemma NoWordBefore(one: string)
    requires one == "1"
    ensures !Contains(one + StationWord[..6], StationWord)
  {
    var p := one + StationWord[..6];
    assert |p| == 7 && p[0] != StationWord[0];
    assert !OccursAt(p, StationWord, 0);
  }
}
