/** Client commands and what `givePianobarInput` writes to pianobar's
    standard input for them. */
module Commands {
  import opened Wrappers
  import opened GoStrings

  /** The two commands a client can send. */
  datatype Command = SelectStation(id: string) | RawCommand(text: string)

  /** The text a command carries after its tag. */
  function Payload(c: Command): string {
    match c
    case SelectStation(id) => id
    case RawCommand(text) => text
  }

  /** The websocket message a client sends for a command. */
  function Message(c: Command): (m: string)
    ensures |m| > |Payload(c)|
  {
    match c
    case SelectStation(id) => "station\t" + id
    case RawCommand(text) => "command\t" + text
  }

  /** What pianobar must receive for a command: `s<id>` and a newline to
      select a station, a raw command exactly as given. */
  function Wire(c: Command): string {
    match c
    case SelectStation(id) => "s" + id + "\n"
    case RawCommand(text) => text
  }

  /** One pass of the loop in `givePianobarInput`: the text written to
      stdin for a client message, None when nothing is written (any tag
      other than `station` and `command`), or the panic raised by
      indexing a missing second tab field. */
  function Encode(msg: string): (r: Result<Option<string>, Panic>)
    ensures r.Failure? <==>
              (Split(msg, '\t')[0] == "station" || Split(msg, '\t')[0] == "command") && '\t' !in msg
    ensures r.Failure? ==> r.error == IndexOutOfRange(1, 1)
    ensures r == Success(None) <==> Split(msg, '\t')[0] != "station" && Split(msg, '\t')[0] != "command"
  {
    var fields := Split(msg, '\t');
    SplitCount(msg, '\t');
    if fields[0] == "station" then
      var id :- Field(fields, 1);
      Success(Some("s" + id + "\n"))
    else if fields[0] == "command" then
      var text :- Field(fields, 1);
      Success(Some(text))
    else
      Success(None)
  }

  /** The tag of a command's message. */
  function TagOf(c: Command): string {
    match c
    case SelectStation(_) => "station"
    case RawCommand(_) => "command"
  }

  /** A command whose payload holds no tab is encoded as its wire text;
      any further tab fields after it are dropped. */
  lemma EncodeMessage(c: Command, tail: string)
    requires Delimits(Payload(c), tail, '\t')
    ensures Encode(Message(c) + tail) == Success(Some(Wire(c)))
  {
    assert Message(c) + tail == TagOf(c) + ['\t'] + Payload(c) + tail;
    SplitTwoFields(TagOf(c), Payload(c), tail, '\t');
  }

  /** A message with any other tag writes nothing. */
  lemma EncodeOtherTag(msg: string, tag: string, rest: string)
    requires msg == tag + rest && Delimits(tag, rest, '\t')
    requires tag != "station" && tag != "command"
    ensures Encode(msg) == Success(None)
  {
    SplitDelimited(tag, rest, '\t');
  }

  /** `station` or `command` without a tab panics. */
  lemma EncodeMissingField(msg: string)
    requires msg == "station" || msg == "command"
    ensures Encode(msg) == Failure(IndexOutOfRange(1, 1))
  {
    SplitDelimited(msg, [], '\t');
    assert msg + [] == msg;
  }

  /** The client message `station\t7` makes pianobar read `s7` and a newline. */
  lemma SelectStationExample(msg: string)
    requires msg == "station\t7"
    ensures Encode(msg) == Success(Some("s7\n"))
  {
    assert msg == Message(SelectStation("7")) + [];
    EncodeMessage(SelectStation("7"), []);
    assert Wire(SelectStation("7")) == "s7\n";
  }

  /** What the loop has written to stdin, and the panic that stopped it. */
  datatype Written = Written(text: string, crash: Option<Panic>)

  function Output(o: Option<string>): string {
    if o.Some? then o.value else ""
  }

  /** The loop of `givePianobarInput` over the messages it receives, in
      the order it receives them. */
  function Feed(msgs: seq<string>): (w: Written)
    ensures w.crash.Some? ==> msgs != [] && w.crash.value == IndexOutOfRange(1, 1)
    decreases |msgs|
  {
    if msgs == [] then Written("", None)
    else
      match Encode(msgs[0])
      case Failure(p) => Written("", Some(p))
      case Success(out) =>
        var rest := Feed(msgs[1..]);
        Written(Output(out) + rest.text, rest.crash)
  }

  /** The loop runs to the end exactly when no message panics. */
  lemma {:induction false} FeedCompletes(msgs: seq<string>)
    ensures Feed(msgs).crash.None? <==> forall i :: 0 <= i < |msgs| ==> Encode(msgs[i]).Success?
    decreases |msgs|
  {
    if msgs != [] {
      FeedCompletes(msgs[1..]);
      assert forall i :: 1 <= i < |msgs| ==> msgs[i] == msgs[1..][i - 1];
    }
  }

  function Messages(cs: seq<Command>): (ms: seq<string>)
    ensures |ms| == |cs|
    ensures forall i :: 0 <= i < |cs| ==> ms[i] == Message(cs[i])
  {
    if cs == [] then [] else [Message(cs[0])] + Messages(cs[1..])
  }

  function Wires(cs: seq<Command>): string {
    if cs == [] then "" else Wire(cs[0]) + Wires(cs[1..])
  }

  /** Commands with tab-free payloads reach pianobar whole and in order,
      each as its wire text, one after the other. */
  lemma {:induction false} FeedCommands(cs: seq<Command>)
    requires forall i :: 0 <= i < |cs| ==> '\t' !in Payload(cs[i])
    ensures Feed(Messages(cs)) == Written(Wires(cs), None)
    decreases |cs|
  {
    if cs != [] {
      var ms := Messages(cs);
      assert Delimits(Payload(cs[0]), [], '\t');
      EncodeMessage(cs[0], []);
      assert ms[0] == Message(cs[0]) + [];
      assert ms[1..] == Messages(cs[1..]);
      FeedCommands(cs[1..]);
    }
  }

  /** `givePianobarInput`: encode each client message in turn and write
      the result to pianobar's stdin (returned here as the text written). */
  method GivePianobarInput(msgs: seq<string>) returns (written: string, crash: Option<Panic>)
    ensures Feed(msgs) == Written(written, crash)
  {
    written, crash := "", None;
    var i := 0;
    while i < |msgs|
      invariant 0 <= i <= |msgs|
      invariant Feed(msgs) == Written(written + Feed(msgs[i..]).text, Feed(msgs[i..]).crash)
    {
      var out := Encode(msgs[i]);
      if out.Failure? {
        FeedHalt(msgs, i, written);
        crash := Some(out.error);
        return;
      }
      FeedAdvance(msgs, i, written, out.value);
      written := written + Output(out.value);
      i := i + 1;
    }
    assert msgs[i..] == [];
    assert written + "" == written;
  }

  /** Feed, one message further on, past a message that did not panic. */
  lemma FeedUnfold(msgs: seq<string>, i: nat, out: Option<string>)
    requires i < |msgs| && Encode(msgs[i]) == Success(out)
    ensures Feed(msgs[i..]) == Written(Output(out) + Feed(msgs[i + 1..]).text, Feed(msgs[i + 1..]).crash)
  {
    assert msgs[i..][0] == msgs[i] && msgs[i..][1..] == msgs[i + 1..];
  }

  /** Feed stops at a message that panics. */
  lemma FeedStops(msgs: seq<string>, i: nat)
    requires i < |msgs| && Encode(msgs[i]).Failure?
    ensures Feed(msgs[i..]) == Written("", Some(Encode(msgs[i]).error))
  {
    assert msgs[i..][0] == msgs[i];
  }

  /** The loop's invariant carried over one message that did not panic. */
  lemma FeedAdvance(msgs: seq<string>, i: nat, written: string, out: Option<string>)
    requires i < |msgs| && Encode(msgs[i]) == Success(out)
    requires Feed(msgs) == Written(written + Feed(msgs[i..]).text, Feed(msgs[i..]).crash)
    ensures Feed(msgs) == Written(written + Output(out) + Feed(msgs[i + 1..]).text, Feed(msgs[i + 1..]).crash)
  {
    FeedUnfold(msgs, i, out);
    Regroup(Feed(msgs), written, Feed(msgs[i..]), Output(out), Feed(msgs[i + 1..]));
  }

  /** What is written before a step, by the step, and after it. */
  lemma Regroup(total: Written, written: string, mid: Written, out: string, rest: Written)
    requires total == Written(written + mid.text, mid.crash)
    requires mid == Written(out + rest.text, rest.crash)
    ensures total == Written(written + out + rest.text, rest.crash)
  {
    assert written + (out + rest.text) == written + out + rest.text;
  }

  /** The loop's invariant at a message that panics. */
  lemma FeedHalt(msgs: seq<string>, i: nat, written: string)
    requires i < |msgs| && Encode(msgs[i]).Failure?
    requires Feed(msgs) == Written(written + Feed(msgs[i..]).text, Feed(msgs[i..]).crash)
    ensures Feed(msgs) == Written(written, Some(Encode(msgs[i]).error))
  {
    FeedStops(msgs, i);
    assert written + "" == written;
  }
}
