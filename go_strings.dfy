/** The three pieces of Go's standard library that panpigo.go leans on:
    `strings.Split` with a one-character separator, indexing a slice
    (which panics when out of range), and `strings.Replace(s, old, "", -1)`. */
module GoStrings {
  import opened Wrappers

  /** The Go runtime error raised by `slice[index]` on a shorter slice. */
  datatype Panic = IndexOutOfRange(index: nat, length: nat)

  /** `strings.Split(s, string(sep))`: the pieces of `s` between occurrences
      of `sep`. There is always at least one piece and no piece holds `sep`. */
  function Split(s: string, sep: char): (r: seq<string>)
    ensures |r| >= 1
    ensures forall i :: 0 <= i < |r| ==> sep !in r[i]
    decreases |s|
  {
    if s == [] then [""]
    else
      var rest := Split(s[1..], sep);
      if s[0] == sep then [""] + rest
      else [[s[0]] + rest[0]] + rest[1..]
  }

  /** `strings.Join(parts, string(sep))`, the inverse of Split. */
  function Join(parts: seq<string>, sep: char): (r: string)
    requires |parts| >= 1
    ensures parts[0] <= r
    decreases |parts|
  {
    if |parts| == 1 then parts[0]
    else parts[0] + [sep] + Join(parts[1..], sep)
  }

  /** Go's slice indexing `parts[i]`: the element, or the runtime panic. */
  function Field(parts: seq<string>, i: nat): (r: Result<string, Panic>)
    ensures r.Success? <==> i < |parts|
    ensures r.Success? ==> r.value == parts[i]
    ensures r.Failure? ==> r.error == IndexOutOfRange(i, |parts|)
  {
    if i < |parts| then Success(parts[i]) else Failure(IndexOutOfRange(i, |parts|))
  }

  /** `a` is a whole first field of `a + rest`: it holds no separator and
      is followed by the end of the text or by a separator. */
  predicate Delimits(a: string, rest: string, sep: char) {
    sep !in a && (rest == [] || rest[0] == sep)
  }

  /** Prefixing separator-free text only lengthens the first piece. */
  lemma {:induction false} SplitPrefixFree(a: string, b: string, sep: char)
    requires sep !in a
    ensures Split(a + b, sep) == [a + Split(b, sep)[0]] + Split(b, sep)[1..]
    decreases |a|
  {
    if a != [] {
      var s := a + b;
      assert s[0] == a[0] && s[0] != sep;
      assert s[1..] == a[1..] + b;
      SplitPrefixFree(a[1..], b, sep);
      var rest := Split(s[1..], sep);
      assert rest[0] == a[1..] + Split(b, sep)[0];
      assert rest[1..] == Split(b, sep)[1..];
      assert Split(s, sep) == [[s[0]] + rest[0]] + rest[1..];
      assert [a[0]] + (a[1..] + Split(b, sep)[0]) == a + Split(b, sep)[0];
    } else {
      var r := Split(b, sep);
      assert a + b == b && a + r[0] == r[0];
      assert r == [r[0]] + r[1..];
    }
  }

  /** Splitting `a + rest` where `a` is a whole field gives `a` and then
      the pieces after the separator. */
  lemma SplitDelimited(a: string, rest: string, sep: char)
    requires Delimits(a, rest, sep)
    ensures Split(a + rest, sep)[0] == a
    ensures rest == [] ==> Split(a + rest, sep) == [a]
    ensures rest != [] ==> Split(a + rest, sep) == [a] + Split(rest[1..], sep)
  {
    SplitPrefixFree(a, rest, sep);
    if rest != [] {
      assert rest == [rest[0]] + rest[1..];
    }
  }

  /** `head`, a separator and `field`, followed by the end of the text or
      another separator: the first two pieces are `head` and `field`. */
  lemma SplitTwoFields(head: string, field: string, tail: string, sep: char)
    requires sep !in head && Delimits(field, tail, sep)
    ensures |Split(head + [sep] + field + tail, sep)| >= 2
    ensures Split(head + [sep] + field + tail, sep)[0] == head
    ensures Split(head + [sep] + field + tail, sep)[1] == field
  {
    var after := field + tail;
    assert head + [sep] + field + tail == head + ([sep] + after);
    SplitDelimited(head, [sep] + after, sep);
    assert ([sep] + after)[1..] == after;
    SplitDelimited(field, tail, sep);
  }

  /** There is one more piece than there are separators. */
  lemma {:induction false} SplitCount(s: string, sep: char)
    ensures |Split(s, sep)| == multiset(s)[sep] + 1
    decreases |s|
  {
    if s != [] {
      SplitCount(s[1..], sep);
      assert s == [s[0]] + s[1..];
    }
  }

  /** Split then Join gives back the original text. */
  lemma {:induction false} JoinSplit(s: string, sep: char)
    ensures Join(Split(s, sep), sep) == s
    decreases |s|
  {
    if s != [] {
      var rest := Split(s[1..], sep);
      JoinSplit(s[1..], sep);
      if s[0] == sep {
        assert Split(s, sep)[1..] == rest;
      } else {
        var r := Split(s, sep);
        assert r[1..] == rest[1..];
        if |rest| == 1 {
          assert Join(r, sep) == [s[0]] + rest[0];
        } else {
          assert Join(rest, sep) == rest[0] + [sep] + Join(rest[1..], sep);
          assert Join(r, sep) == [s[0]] + rest[0] + [sep] + Join(rest[1..], sep);
        }
      }
    }
  }

  /** Joining separator-free pieces and splitting again gives back the pieces. */
  lemma {:induction false} SplitJoin(parts: seq<string>, sep: char)
    requires |parts| >= 1
    requires forall i :: 0 <= i < |parts| ==> sep !in parts[i]
    ensures Split(Join(parts, sep), sep) == parts
    decreases |parts|
  {
    if |parts| == 1 {
      SplitDelimited(parts[0], [], sep);
      assert parts[0] + [] == parts[0];
    } else {
      var tail := Join(parts[1..], sep);
      SplitJoin(parts[1..], sep);
      assert Join(parts, sep) == parts[0] + ([sep] + tail);
      SplitDelimited(parts[0], [sep] + tail, sep);
      assert ([sep] + tail)[1..] == tail;
    }
  }

  /** `pat` occurs in `s` at position `i`. */
  predicate OccursAt(s: string, pat: string, i: nat) {
    i + |pat| <= |s| && s[i..i + |pat|] == pat
  }

  predicate Contains(s: string, pat: string) {
    exists i: nat | i <= |s| :: OccursAt(s, pat, i)
  }

  /** `strings.Replace(s, pat, "", -1)`: delete every non-overlapping
      occurrence of `pat`, scanning left to right. The result keeps a
      sub-multiset of the characters of `s`. */
  function RemoveAll(s: string, pat: string): (r: string)
    requires pat != []
    ensures |r| <= |s|
    ensures multiset(r) <= multiset(s)
    decreases |s|
  {
    if |s| < |pat| then s
    else if s[..|pat|] == pat then
      assert s == s[..|pat|] + s[|pat|..];
      RemoveAll(s[|pat|..], pat)
    else
      assert s == [s[0]] + s[1..];
      [s[0]] + RemoveAll(s[1..], pat)
  }

  /** Text without an occurrence of `pat` is left as it is. */
  lemma {:induction false} RemoveAllAbsent(s: string, pat: string)
    requires pat != []
    requires !Contains(s, pat)
    ensures RemoveAll(s, pat) == s
    decreases |s|
  {
    if |s| >= |pat| {
      assert !OccursAt(s, pat, 0);
      assert !Contains(s[1..], pat) by {
        forall i: nat | i <= |s[1..]| && OccursAt(s[1..], pat, i)
          ensures false
        {
          assert s[1..][i..i + |pat|] == s[i + 1..i + 1 + |pat|];
          assert OccursAt(s, pat, i + 1);
        }
      }
      RemoveAllAbsent(s[1..], pat);
      assert s == [s[0]] + s[1..];
    }
  }

  /** A leading occurrence is removed and the scan resumes right after it. */
  lemma RemoveAllLeading(s: string, pat: string)
    requires pat != []
    ensures RemoveAll(pat + s, pat) == RemoveAll(s, pat)
  {
    assert (pat + s)[..|pat|] == pat;
    assert (pat + s)[|pat|..] == s;
  }
}
