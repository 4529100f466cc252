/** The reading side of a response: which stream entries count and when the wait is over. */
module ResponseClient {
  import opened Text
  import opened JsonText
  import opened Frames
  import R = Assembling

  /** `Answered`: the terminal record was printed last. `Failed`: the client gave up and
      asks the user to replay; what it printed before stays printed. */
  datatype Progress =
    | Waiting(expected: nat, reader: R.State, printed: seq<Json>)
    | Answered(printed: seq<Json>)
    | Failed(printed: seq<Json>)

  const START := Waiting(0, R.EMPTY, [])

  /** Whether an entry is addressed to this request. A frame whose id is not a text stops
      the client, one without an id is somebody else's. */
  datatype Address = Ours | Other | Unusable

  function AddressOf(frame: Option<Json>, id: Text): Address {
    if frame.None? || !frame.value.Obj? then Other
    else if ID !in frame.value.m then (if id == [] then Ours else Other)
    else if !frame.value.m[ID].Str? then Unusable
    else if frame.value.m[ID].s == id then Ours else Other
  }

  /** What the reader makes of the frame that comes next. */
  function TakeNext(host: R.Host, expected: nat, reader: R.State, printed: seq<Json>, frame: Json): Progress {
    var (t, verdict) := R.Accept(host, reader, frame);
    match verdict
    case Invalid => Failed(printed)
    case More => Waiting(expected + 1, t, printed)
    case Ready(logical) =>
      if IsTerminal(logical) then Answered(printed + [logical]) else Waiting(expected + 1, t, printed + [logical])
  }

  /** One entry of the response stream. */
  function Take(host: R.Host, id: Text, p: Progress, text: Text): Progress {
    if !p.Waiting? then p
    else
      var parsed := host.parse(text);
      match AddressOf(parsed, id)
      case Other => p
      case Unusable => Failed(p.printed)
      case Ours =>
        var frame := parsed.value;
        if !R.IsUnsigned(frame.m, SEQ) then Failed(p.printed)
        else
          var number := frame.m[SEQ].n;
          if number > p.expected && p.expected != 0 then Failed(p.printed)
          else if number != p.expected then p
          else TakeNext(host, p.expected, p.reader, p.printed, frame)
  }

  /** After these entries, from the start. */
  function Waited(host: R.Host, id: Text, texts: seq<Text>): Progress
    decreases |texts|
  {
    if texts == [] then START else Take(host, id, Waited(host, id, texts[..|texts| - 1]), texts[|texts| - 1])
  }

  lemma WaitedAppend(host: R.Host, id: Text, texts: seq<Text>, text: Text)
    ensures Waited(host, id, texts + [text]) == Take(host, id, Waited(host, id, texts), text)
  {
    hide Take;
    assert (texts + [text])[..|texts|] == texts;
  }

  /** A finished wait does not look at later entries. */
  lemma {:induction false} WaitIsOver(host: R.Host, id: Text, texts: seq<Text>, n: nat)
    requires n <= |texts| && !Waited(host, id, texts[..n]).Waiting?
    ensures Waited(host, id, texts) == Waited(host, id, texts[..n])
    decreases |texts|
  {
    if n < |texts| {
      var shorter := texts[..|texts| - 1];
      assert shorter[..n] == texts[..n];
      WaitIsOver(host, id, shorter, n);
    } else {
      assert texts[..n] == texts;
    }
  }

  /** The client at its stream. */
  class Client {
    const host: R.Host
    const id: Text
    const assembler: R.ResponseAssembler
    var expected: nat
    var printed: seq<Json>
    var over: bool
    var failed: bool

    ghost predicate Valid()
      reads this, assembler
    {
      assembler.host == host && (failed ==> over)
    }

    ghost function Now(): Progress
      reads this, assembler
    {
      if failed then Failed(printed) else if over then Answered(printed)
        else Waiting(expected, assembler.Now(), printed)
    }

    constructor (host: R.Host, id: Text)
      ensures Valid() && fresh(assembler) && this.host == host && this.id == id && Now() == START
    {
      this.host, this.id := host, id;
      assembler := new R.ResponseAssembler(host);
      expected, printed, over, failed := 0, [], false, false;
    }

    /** Handles one entry; the caller deletes it afterwards. */
    method Handle(text: Text)
      requires Valid() && !over
      modifies this, assembler
      ensures Valid() && Now() == Take(host, id, old(Now()), text)
    {
      hide Ascii;
      var parsed := host.parse(text);
      match AddressOf(parsed, id) {
        case Other =>
        case Unusable =>
          over, failed := true, true;
        case Ours =>
          var frame := parsed.value;
          if SEQ !in frame.m || !R.IsUnsigned(frame.m, SEQ) {
            over, failed := true, true;
            return;
          }
          var number := frame.m[SEQ].n;
          if number > expected && expected != 0 {
            over, failed := true, true;
            return;
          }
          if number == expected {
            expected := expected + 1;
            var verdict := assembler.AcceptFrame(frame);
            if verdict.Invalid? {
              over, failed := true, true;
            } else if verdict.Ready? {
              printed := printed + [verdict.logical];
              over := IsTerminal(verdict.logical);
            }
          }
      }
    }

    /** Reads the entries of the stream in order and deletes each once handled; stops
        right after the entry that ends the wait. */
    method Wait(texts: seq<Text>) returns (taken: nat)
      requires Valid() && Now() == START
      modifies this, assembler
      ensures Valid() && taken <= |texts| && Now() == Waited(host, id, texts)
      ensures taken < |texts| ==> !Now().Waiting?
      ensures taken > 0 ==> Waited(host, id, texts[..taken - 1]).Waiting?
    {
      taken := 0;
      while taken < |texts| && !over
        invariant Valid() && taken <= |texts| && Now() == Waited(host, id, texts[..taken])
        invariant taken > 0 ==> Waited(host, id, texts[..taken - 1]).Waiting?
      {
        WaitedAppend(host, id, texts[..taken], texts[taken]);
        assert texts[..taken + 1] == texts[..taken] + [texts[taken]];
        Handle(texts[taken]);
        taken := taken + 1;
      }
      if taken < |texts| {
        WaitIsOver(host, id, texts, taken);
      } else {
        assert texts[..taken] == texts;
      }
    }
  }
}
