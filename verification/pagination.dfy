/** Streams of pages: the loop that asks for the next one, and the log it leaves. */
module Pagination {
  import opened Text
  import opened JsonText
  import opened Frames
  import opened Spooling
  import Log = SpoolLog
  import Base64

  const PAGES := 1024
  const FIRST_CURSOR := 0xFFFF_FFFF

  /** The return value with which a stream asks to be continued. */
  const CONTINUE := -165

  const DEADLINE := Status(Ascii("deadline_exceeded"), Ascii("VPP pagination did not complete"))
  const REJECTED := Status(Ascii("vpp_rejected"), Ascii("VPP rejected the stream operation"))
  const TOO_MANY := Status(Ascii("quota_exceeded"), Ascii("VPP pagination exceeded 1024 pages"))

  /** One element of a page: decoded, or why it could not be. */
  datatype Element = Item(value: Json) | Undecodable(why: Status)

  /** The decoded completion of a page, with its cursor if that is an unsigned number. */
  datatype Completion = Garbled(why: Status) | Completion(cursor: Option<nat>)

  /** All that a call can bring: whether the request could be encoded and sent, the
      elements that arrived, how waiting for them and the call itself ended, its
      completion and return value, and whether the deadline has passed by then. */
  datatype Page = Page(encoded: Status, sent: Status, elements: seq<Element>, dispatched: Status, reported: Status,
                       completion: Completion, retval: int, late: bool)

  /** How the message is declared: with a completion of its own, and with a cursor. */
  datatype Stream = Stream(explicit: bool, automatic: bool)

  datatype Outcome = Fail(why: Status) | Done(status: Status) | Next(cursor: nat)

  // ---- The loop as a function ----

  /** One element: after one that cannot be decoded, or spooled, the rest is dropped. */
  function Taken(host: Host, s: State, element: Element, decoded: Status): (State, Status) {
    if !decoded.Ok() || !s.status.Ok() then (s, decoded)
    else
      match element
      case Undecodable(why) => (s, why)
      case Item(value) => (Add(host, s, value).0, decoded)
  }

  /** Elements as they arrive. */
  function Arrive(host: Host, s: State, elements: seq<Element>, decoded: Status): (State, Status)
    decreases |elements|
  {
    if elements == [] then (s, decoded)
    else
      var (t, after) := Taken(host, s, elements[0], decoded);
      Arrive(host, t, elements[1..], after)
  }

  function Visit(host: Host, s: State, stream: Stream, page: Page, cursor: nat): (State, Outcome) {
    if !page.encoded.Ok() then (s, Fail(page.encoded))
    else if !page.sent.Ok() then (s, Fail(page.sent))
    else
      var (t, decoded) := Arrive(host, s, page.elements, OK);
      (t, Judge(t, decoded, stream, page, cursor))
  }

  function Judge(t: State, decoded: Status, stream: Stream, page: Page, cursor: nat): Outcome {
    if !page.dispatched.Ok() then Done(page.dispatched)
    else if !page.reported.Ok() then Done(page.reported)
    else if !decoded.Ok() || !t.status.Ok() then Done(decoded)
    else if !stream.explicit then Done(OK)
    else
      match page.completion
      case Garbled(why) => Done(why)
      case Completion(next) =>
        if page.retval == CONTINUE && stream.automatic then
          (if next.None? || next.value == cursor || page.late then Done(DEADLINE) else Next(next.value))
        else if page.retval != 0 then Done(REJECTED)
        else Done(OK)
  }

  /** The rest of the loop, and how many calls were made in all. */
  function Pages(host: Host, s: State, stream: Stream, replies: nat -> Page, page: nat, cursor: nat,
                 synced: bool): (State, Status, nat)
    requires page <= PAGES
    decreases PAGES - page
  {
    if page == PAGES then
      var (t, final) := Finish(host, s, TOO_MANY, synced);
      (t, final, page)
    else
      var (t, outcome) := Visit(host, s, stream, replies(page), cursor);
      match outcome
      case Fail(why) => var (u, final) := Single(host, t, ErrorRecord(t.id, why), synced); (u, final, page + 1)
      case Done(status) => var (u, final) := Finish(host, t, status, synced); (u, final, page + 1)
      case Next(next) => Pages(host, t, stream, replies, page + 1, next, synced)
  }

  /** The loop as it runs. */
  method Paginate(spool: Spool, stream: Stream, replies: nat -> Page, synced: bool) returns (final: Status, calls: nat)
    modifies spool
    ensures (spool.Now(), final, calls) == Pages(spool.host, old(spool.Now()), stream, replies, 0, FIRST_CURSOR, synced)
  {
    hide Ascii, Dump, Finish, Single, Visit, ErrorRecord;
    var cursor: nat := FIRST_CURSOR;
    calls := 0;
    while calls < PAGES
      invariant calls <= PAGES
      invariant Pages(spool.host, old(spool.Now()), stream, replies, 0, FIRST_CURSOR, synced)
             == Pages(spool.host, spool.Now(), stream, replies, calls, cursor, synced)
    {
      var outcome := VisitPage(spool, stream, replies(calls), cursor);
      calls := calls + 1;
      match outcome {
        case Fail(why) =>
          final := spool.WriteSingle(ErrorRecord(spool.id, why), synced);
          return;
        case Done(status) =>
          final := spool.FinishWith(status, synced);
          return;
        case Next(next) =>
          cursor := next;
      }
    }
    final := spool.FinishWith(TOO_MANY, synced);
  }

  /** One call: its request, its elements, and the verdict. */
  method VisitPage(spool: Spool, stream: Stream, page: Page, cursor: nat) returns (outcome: Outcome)
    modifies spool
    ensures (spool.Now(), outcome) == Visit(spool.host, old(spool.Now()), stream, page, cursor)
  {
    hide Ascii, Dump, Arrive, Judge;
    if !page.encoded.Ok() {
      return Fail(page.encoded);
    }
    if !page.sent.Ok() {
      return Fail(page.sent);
    }
    var decoded := TakeElements(spool, page.elements);
    outcome := Judged(spool, decoded, stream, page, cursor);
  }

  /** The verdict on a page whose elements have arrived. */
  method Judged(spool: Spool, decoded: Status, stream: Stream, page: Page, cursor: nat) returns (outcome: Outcome)
    ensures outcome == Judge(spool.Now(), decoded, stream, page, cursor)
  {
    hide Ascii;
    if !page.dispatched.Ok() {
      return Done(page.dispatched);
    }
    if !page.reported.Ok() {
      return Done(page.reported);
    }
    if !decoded.Ok() || !spool.status.Ok() {
      return Done(decoded);
    }
    if stream.explicit {
      if page.completion.Garbled? {
        return Done(page.completion.why);
      }
      var next := page.completion.cursor;
      if page.retval == CONTINUE && stream.automatic {
        if next.None? || next.value == cursor || page.late {
          return Done(DEADLINE);
        }
        return Next(next.value);
      }
      if page.retval != 0 {
        return Done(REJECTED);
      }
    }
    return Done(OK);
  }

  method TakeElements(spool: Spool, elements: seq<Element>) returns (decoded: Status)
    modifies spool
    ensures (spool.Now(), decoded) == Arrive(spool.host, old(spool.Now()), elements, OK)
  {
    hide Ascii, Dump, Add;
    decoded := OK;
    var i := 0;
    assert elements[0..] == elements;
    while i < |elements|
      invariant i <= |elements|
      invariant Arrive(spool.host, old(spool.Now()), elements, OK)
           == Arrive(spool.host, spool.Now(), elements[i..], decoded)
    {
      assert elements[i..][0] == elements[i] && elements[i..][1..] == elements[i + 1..];
      if decoded.Ok() && spool.status.Ok() {
        match elements[i] {
          case Undecodable(why) => decoded := why;
          case Item(value) => var added := spool.AddItem(value);
        }
      }
      i := i + 1;
    }
  }

  // ---- What arrives is added in order ----

  /** The items before the first element that could not be decoded. */
  function Decodable(elements: seq<Element>): seq<Json> {
    if elements == [] || elements[0].Undecodable? then [] else [elements[0].value] + Decodable(elements[1..])
  }

  predicate AllDecoded(elements: seq<Element>) { forall i :: 0 <= i < |elements| ==> elements[i].Item? }

  /** Causes of failure are causes: they carry a code. */
  predicate Honest(page: Page) {
    && (forall i :: 0 <= i < |page.elements| && page.elements[i].Undecodable? ==> !page.elements[i].why.Ok())
    && (page.completion.Garbled? ==> !page.completion.why.Ok())
  }

  lemma AddsMore(host: Host, s: State, items: seq<Json>, item: Json)
    ensures Log.Adds(host, s, items + [item]) == Add(host, Log.Adds(host, s, items), item).0
  {
    hide Add;
    assert (items + [item])[..|items|] == items;
  }

  /** A spool that has failed takes nothing more. */
  lemma {:induction false} FailedTakesNothing(host: Host, s: State, items: seq<Json>, more: seq<Json>)
    requires !Log.Adds(host, s, items).status.Ok()
    ensures Log.Adds(host, s, items + more) == Log.Adds(host, s, items)
    decreases |more|
  {
    hide Dump, WriteRecord;
    if more == [] {
      assert items + more == items;
    } else {
      FailedTakesNothing(host, s, items, more[..|more| - 1]);
      assert items + more == items + more[..|more| - 1] + [more[|more| - 1]];
      AddsMore(host, s, items + more[..|more| - 1], more[|more| - 1]);
    }
  }

  lemma {:induction false} DroppedArrive(host: Host, s: State, elements: seq<Element>, decoded: Status)
    requires !decoded.Ok() || !s.status.Ok()
    ensures Arrive(host, s, elements, decoded) == (s, decoded)
  {
    if elements != [] {
      DroppedArrive(host, s, elements[1..], decoded);
    }
  }

  lemma {:induction false} ArriveAdds(host: Host, start: State, items: seq<Json>, elements: seq<Element>)
    requires Log.Adds(host, start, items).status.Ok()
    requires forall i :: 0 <= i < |elements| && elements[i].Undecodable? ==> !elements[i].why.Ok()
    ensures var (t, decoded) := Arrive(host, Log.Adds(host, start, items), elements, OK);
            && t == Log.Adds(host, start, items + Decodable(elements))
            && (t.status.Ok() ==> (decoded.Ok() <==> AllDecoded(elements)))
    decreases |elements|
  {
    hide Add, Dump, Ascii, Log.Adds;
    var s := Log.Adds(host, start, items);
    if elements == [] {
      assert items + [] == items;
    } else {
      var rest := elements[1..];
      assert AllDecoded(elements) <==> elements[0].Item? && AllDecoded(rest) by {
        forall i | 0 <= i < |rest| ensures rest[i] == elements[i + 1] {
        }
        assert elements == [elements[0]] + rest;
      }
      match elements[0]
      case Undecodable(why) =>
        DroppedArrive(host, s, rest, why);
        assert items + [] == items;
      case Item(value) =>
        AddsMore(host, start, items, value);
        assert items + Decodable(elements) == items + [value] + Decodable(rest);
        if Log.Adds(host, start, items + [value]).status.Ok() {
          ArriveAdds(host, start, items + [value], rest);
        } else {
          DroppedArrive(host, Log.Adds(host, start, items + [value]), rest, OK);
          FailedTakesNothing(host, start, items + [value], Decodable(rest));
        }
    }
  }

  // ---- What a complete stream is ----

  function Brought(page: Page): seq<Json> {
    if page.encoded.Ok() && page.sent.Ok() then Decodable(page.elements) else []
  }

  /** All items of the first pages, in the order they arrived. */
  function Delivered(replies: nat -> Page, n: nat): seq<Json> {
    if n == 0 then [] else Delivered(replies, n - 1) + Brought(replies(n - 1))
  }

  /** The cursor the `n`th page was asked for with. */
  function CursorAt(replies: nat -> Page, n: nat): nat {
    if n == 0 then FIRST_CURSOR
    else match replies(n - 1).completion case Completion(Some(cursor)) => cursor case _ => 0
  }

  predicate Answered(page: Page) {
    page.encoded.Ok() && page.sent.Ok() && page.dispatched.Ok() && page.reported.Ok() && AllDecoded(page.elements)
  }

  /** The page asks to be continued at another cursor. */
  predicate Continues(stream: Stream, page: Page, cursor: nat) {
    && Answered(page) && stream.explicit && stream.automatic && page.retval == CONTINUE
    && page.completion.Completion? && page.completion.cursor.Some? && page.completion.cursor.value != cursor
      && !page.late
  }

  /** The page says that the stream is complete. */
  predicate EndsWell(stream: Stream, page: Page) {
    Answered(page) && (stream.explicit ==> page.completion.Completion? && page.retval == 0)
  }

  ghost predicate WholeStream(stream: Stream, replies: nat -> Page, calls: nat) {
    && 0 < calls <= PAGES && EndsWell(stream, replies(calls - 1))
    && forall i: nat :: i < calls - 1 ==> Continues(stream, replies(i), CursorAt(replies, i))
  }

  /** The log of a stream: the first `spooled` items in order, then one terminal. */
  ghost predicate StreamLog(t: State, id: Text, items: seq<Json>, spooled: nat, complete: bool) {
    && Log.CompleteLog(id, t.frames) && t.file == Lines(t.frames)
    && spooled <= |items| && |t.records| == spooled + 1
    && (forall i :: 0 <= i < spooled ==> t.records[i] == Log.ItemRecord(id, items, i))
    && var last := t.records[spooled];
    && (complete ==> HasType(last, COMPLETE) && spooled == |items|) && (!complete ==> HasType(last, ERROR))
  }

  lemma FinishedStream(host: Host, s: State, items: seq<Json>, status: Status, synced: bool)
    requires Log.Dumped(s, items)
    ensures var (t, final) := Finish(host, s, status, synced);
            final.Ok() ==> StreamLog(t, s.id, items, s.items, s.status.Ok() && status.Ok())
  {
    hide Dump, Lines, Ascii, Log.Inv, Log.ItemRecord, Log.FrameTotal, Finish, Terminal, Numbered, HasType;
    var (t, final) := Finish(host, s, status, synced);
    if final.Ok() {
      Log.FinishIsHonest(host, s, items, status, synced);
      Log.DumpIsCompleteLog(s, t, items, status);
      FinishDetails(host, s, status, synced);
    }
  }

  lemma FinishDetails(host: Host, s: State, status: Status, synced: bool)
    requires Log.Inv(s)
    ensures var t := Finish(host, s, status, synced).0; t.id == s.id
    ensures Finish(host, s, status, synced).1.Ok() ==>
              var t := Finish(host, s, status, synced).0;
              |t.records| > 0 && (!(s.status.Ok() && status.Ok()) ==> HasType(t.records[|t.records| - 1], ERROR))
  {
    hide Dump, Ascii;
    NamesDiffer();
    Log.StatusCodes();
  }

  /** A failure between two pages ends the log with one error as well. */
  lemma FailedStream(host: Host, s: State, items: seq<Json>, why: Status, synced: bool)
    requires Log.Dumped(s, items) && s.status.Ok()
    ensures var (t, final) := Single(host, s, ErrorRecord(s.id, why), synced);
            final.Ok() ==> StreamLog(t, s.id, items, s.items, false)
  {
    hide Dump, Lines, Ascii, Log.Inv, Log.ItemRecord, Log.FrameTotal, Single, Numbered, Fragmented, HasType,
         ErrorRecord;
    var record := ErrorRecord(s.id, why);
    ErrorIsTerminal(s.id, why);
    Log.SingleIsFinished(host, s, record, synced);
    var (t, final) := Single(host, s, record, synced);
    if final.Ok() {
      Log.SingleIsCompleteLog(s, t, record);
      Log.ErrorEnds(s.id, why, |t.frames| - 1);
      Log.ErrorEnds(s.id, QUOTA_EXCEEDED, |t.frames| - 1);
      Log.ErrorEnds(s.id, TOO_LARGE, |t.frames| - 1);
    }
  }

  lemma ErrorIsTerminal(id: Text, why: Status)
    ensures var record := ErrorRecord(id, why);
            Addressed(id, record) && HasType(Obj(record), ERROR) && IsTerminal(Obj(record))
              && !HasType(Obj(record), CHUNK)
  {
    hide Ascii;
    NamesDiffer();
  }

  // ---- Every run of the loop ----

  /** Where the loop stands before page `n`: everything so far arrived and was spooled, and
      every page asked to be continued. */
  ghost predicate Standing(host: Host, start: State, stream: Stream, replies: nat -> Page, n: nat, cursor: nat,
                           s: State) {
    && s == Log.Adds(host, start, Delivered(replies, n)) && s.status.Ok() && cursor == CursorAt(replies, n)
    && forall i: nat :: i < n ==> Continues(stream, replies(i), CursorAt(replies, i))
  }

  /** What the loop leaves: at most 1024 calls, and a log of the items in order of arrival
      that says `complete` exactly when the stream was whole and all of it was spooled. */
  ghost predicate HonestStream(stream: Stream, replies: nat -> Page, id: Text, t: State, calls: nat) {
    && calls <= PAGES && |t.records| > 0
    && var spooled := |t.records| - 1;
    && var complete := HasType(t.records[spooled], COMPLETE);
    && StreamLog(t, id, Delivered(replies, calls), spooled, complete)
    && (complete <==> WholeStream(stream, replies, calls) && spooled == |Delivered(replies, calls)|)
  }

  lemma NotBoth(frame: Json)
    ensures !(HasType(frame, COMPLETE) && HasType(frame, ERROR))
  {
    assert |COMPLETE| != |ERROR|;
  }

  /** A log of these items is honest if it says `complete` when, and only when, it may. */
  lemma LogIsHonest(stream: Stream, replies: nat -> Page, id: Text, t: State, calls: nat, spooled: nat, complete: bool)
    requires calls <= PAGES && StreamLog(t, id, Delivered(replies, calls), spooled, complete)
    requires complete <==> WholeStream(stream, replies, calls) && spooled == |Delivered(replies, calls)|
    ensures HonestStream(stream, replies, id, t, calls)
  {
    hide Log.CompleteLog, Delivered, WholeStream, Log.ItemRecord, Lines, Dump, HasType;
    NotBoth(t.records[spooled]);
  }

  /** A page asks to be continued exactly when the loop goes on after it. */
  lemma JudgeIsRight(t: State, decoded: Status, stream: Stream, page: Page, cursor: nat)
    requires Honest(page) && page.encoded.Ok() && page.sent.Ok()
    requires (t.status.Ok() ==> (decoded.Ok() <==> AllDecoded(page.elements)))
    ensures var outcome := Judge(t, decoded, stream, page, cursor);
            && !outcome.Fail?
            && (outcome.Next? <==> t.status.Ok() && Continues(stream, page, cursor))
            && (outcome.Next? ==> page.completion.Completion? && page.completion.cursor == Some(outcome.cursor))
            && (outcome.Done? && t.status.Ok() ==> (outcome.status.Ok() <==> EndsWell(stream, page)))
  {
    hide AllDecoded;
    CausesHaveCodes();
  }

  lemma CausesHaveCodes()
    ensures !DEADLINE.Ok() && !REJECTED.Ok() && !TOO_MANY.Ok()
  {
  }

  lemma NotWholeYet(stream: Stream, replies: nat -> Page, calls: nat)
    requires 0 < calls
    requires (Continues(stream, replies(calls - 1), CursorAt(replies, calls - 1)) || !Answered(replies(calls - 1)))
    ensures !WholeStream(stream, replies, calls)
  {
    hide Answered, CursorAt;
  }

  lemma WholeNow(stream: Stream, replies: nat -> Page, n: nat)
    requires n < PAGES && forall i: nat :: i < n ==> Continues(stream, replies(i), CursorAt(replies, i))
    ensures WholeStream(stream, replies, n + 1) <==> EndsWell(stream, replies(n))
  {
    hide Answered, CursorAt;
  }

  lemma {:induction false} PagesAreHonest(host: Host, start: State, stream: Stream, replies: nat -> Page, n: nat,
                                          cursor: nat, s: State, synced: bool)
    requires Log.Clean(start) && start.frames == [] && start.items == 0 && start.records == []
    requires start.status.Ok() && n <= PAGES && Standing(host, start, stream, replies, n, cursor, s)
    requires forall i: nat :: Honest(replies(i))
    ensures var (t, final, calls) := Pages(host, s, stream, replies, n, cursor, synced);
            calls <= PAGES && (final.Ok() ==> HonestStream(stream, replies, start.id, t, calls))
    decreases PAGES - n
  {
    hide Ascii, Dump, Add, Finish, Single, Arrive, Log.Adds, Log.Dumped, Delivered, CursorAt, Answered, Continues,
         EndsWell, WholeStream, HonestStream, StreamLog, Judge, Honest, Log.Clean;
    Log.AddsShape(host, start, Delivered(replies, n));
    if n == PAGES {
      CausesHaveCodes();
      FinishedStream(host, s, Delivered(replies, n), TOO_MANY, synced);
      NotWholeYet(stream, replies, n);
      SpooledAtMost(s, Delivered(replies, n));
      if Finish(host, s, TOO_MANY, synced).1.Ok() {
        LogIsHonest(stream, replies, start.id, Finish(host, s, TOO_MANY, synced).0, n, s.items, false);
      }
    } else {
      PageIsHonest(host, start, stream, replies, n, cursor, s, synced);
      var (t, outcome) := Visit(host, s, stream, replies(n), cursor);
      if outcome.Next? {
        PagesAreHonest(host, start, stream, replies, n + 1, outcome.cursor, t, synced);
      }
    }
  }

  lemma SpooledAtMost(s: State, items: seq<Json>)
    requires Log.Dumped(s, items)
    ensures s.items <= |items| && (s.status.Ok() ==> s.items == |items|)
  {
    hide Log.Inv, Log.ItemRecord, Log.FrameTotal;
  }

  /** One turn of the loop: it stands before the next page, or the log is honest. */
  lemma PageIsHonest(host: Host, start: State, stream: Stream, replies: nat -> Page, n: nat, cursor: nat, s: State,
                     synced: bool)
    requires Log.Clean(start) && start.frames == [] && start.items == 0 && start.records == []
    requires start.status.Ok() && n < PAGES && Standing(host, start, stream, replies, n, cursor, s)
    requires Honest(replies(n))
    ensures var (t, outcome) := Visit(host, s, stream, replies(n), cursor);
            match outcome
            case Next(next) => Standing(host, start, stream, replies, n + 1, next, t)
            case Done(status) =>
              Finish(host, t, status, synced).1.Ok() ==>
                  HonestStream(stream, replies, start.id, Finish(host, t, status, synced).0, n + 1)
            case Fail(why) =>
              Single(host, t, ErrorRecord(t.id, why), synced).1.Ok() ==>
                HonestStream(stream, replies, start.id, Single(host, t, ErrorRecord(t.id, why), synced).0, n + 1)
  {
    hide Ascii, Dump, Add, Finish, Single, Arrive, Log.Adds, Log.Dumped, Delivered, CursorAt, Continues, EndsWell,
         WholeStream, HonestStream, StreamLog, Judge, Log.Clean, ErrorRecord, Decodable, AllDecoded, Answered;
    var page, before := replies(n), Delivered(replies, n);
    Log.AddsShape(host, start, before);
    SpooledAtMost(s, before);
    if !page.encoded.Ok() || !page.sent.Ok() {
      var why := if !page.encoded.Ok() then page.encoded else page.sent;
      FailedAt(host, start, stream, replies, n, s, why, synced);
    } else {
      ArriveAdds(host, start, before, page.elements);
      var (t, decoded) := Arrive(host, s, page.elements, OK);
      JudgeIsRight(t, decoded, stream, page, cursor);
      DeliveredMore(replies, n);
      Log.AddsShape(host, start, before + Decodable(page.elements));
      SpooledAtMost(t, before + Decodable(page.elements));
      match Judge(t, decoded, stream, page, cursor)
      case Next(next) => CursorNext(replies, n);
      case Done(status) =>
        FinishedStream(host, t, Delivered(replies, n + 1), status, synced);
        WholeNow(stream, replies, n);
        if Finish(host, t, status, synced).1.Ok() {
          if t.status.Ok() {
            LogIsHonest(stream, replies, start.id, Finish(host, t, status, synced).0, n + 1, t.items, status.Ok());
          } else {
            NotAllSpooled(host, start, Delivered(replies, n + 1));
            LogIsHonest(stream, replies, start.id, Finish(host, t, status, synced).0, n + 1, t.items, false);
          }
        }
      case Fail(_) =>
    }
  }

  lemma DeliveredMore(replies: nat -> Page, n: nat)
    ensures Delivered(replies, n + 1) == Delivered(replies, n) + Brought(replies(n))
  {
  }

  lemma CursorNext(replies: nat -> Page, n: nat)
    ensures var c := replies(n).completion; c.Completion? && c.cursor.Some? ==>
              CursorAt(replies, n + 1) == c.cursor.value
  {
  }

  /** When the spool has failed, some item is missing from it. */
  lemma {:induction false} NotAllSpooled(host: Host, start: State, items: seq<Json>)
    requires Log.Clean(start) && start.frames == [] && start.items == 0 && start.records == [] && start.status.Ok()
    requires !Log.Adds(host, start, items).status.Ok()
    ensures Log.Adds(host, start, items).items < |items|
    decreases |items|
  {
    hide Dump, Lines, Log.Inv, Log.Clean, WriteRecord, Log.ItemRecord, Log.FrameTotal;
    var before := items[..|items| - 1];
    Log.AddsShape(host, start, before);
    SpooledAtMost(Log.Adds(host, start, before), before);
    if !Log.Adds(host, start, before).status.Ok() {
      NotAllSpooled(host, start, before);
    } else {
      FailedAddCounts(host, Log.Adds(host, start, before), items[|items| - 1]);
    }
  }

  lemma FailedAddCounts(host: Host, s: State, item: Json)
    requires s.status.Ok() && !Add(host, s, item).0.status.Ok() && Log.Clean(s)
    ensures Add(host, s, item).0.items == s.items
  {
    hide Dump, Lines, Log.Inv, WriteRecord, ChunkRecord, Log.FrameCount, Numbered;
    Log.ChunkIsChunk(s.id, item);
    Log.RecordKeeps(host, s, ChunkRecord(s.id, item));
  }

  lemma FailedAt(host: Host, start: State, stream: Stream, replies: nat -> Page, n: nat, s: State, why: Status,
                 synced: bool)
    requires Log.Clean(start) && start.frames == [] && start.items == 0 && start.records == []
    requires n < PAGES && s == Log.Adds(host, start, Delivered(replies, n)) && s.status.Ok()
    requires !replies(n).encoded.Ok() || !replies(n).sent.Ok()
    ensures var (t, final) := Single(host, s, ErrorRecord(s.id, why), synced);
            final.Ok() ==> HonestStream(stream, replies, start.id, t, n + 1)
  {
    hide Ascii, Dump, Single, Log.Adds, Log.Dumped, Delivered, CursorAt, Continues, WholeStream, HonestStream,
         StreamLog, Log.Clean, ErrorRecord, Decodable;
    Log.AddsShape(host, start, Delivered(replies, n));
    FailedStream(host, s, Delivered(replies, n), why, synced);
    DeliveredMore(replies, n);
    assert Delivered(replies, n + 1) == Delivered(replies, n);
    NotWholeYet(stream, replies, n + 1);
    if Single(host, s, ErrorRecord(s.id, why), synced).1.Ok() {
      LogIsHonest(stream, replies, start.id, Single(host, s, ErrorRecord(s.id, why), synced).0, n + 1, s.items, false);
    }
  }

  // ---- A spool that could not be created ----

  lemma ClosedIsRefused(host: Host, s: State, status: Status, synced: bool)
    requires !s.open
    ensures !Finish(host, s, status, synced).1.Ok()
  {
    hide Dump, Ascii;
    Log.StatusCodes();
  }

  lemma ClosedWritesNothing(host: Host, s: State, record: map<Text, Json>)
    requires !s.open
    ensures !WriteRecord(host, s, record).1 && !WriteRecord(host, s, record).0.open
  {
    hide Dump, Ascii, Base64.Encode;
    ObjectSize(record);
  }

  lemma {:induction false} ClosedTakesNothing(host: Host, s: State, elements: seq<Element>)
    requires !s.status.Ok()
    ensures Arrive(host, s, elements, OK) == (s, OK)
  {
    DroppedArrive(host, s, elements, OK);
  }

  lemma ClosedIsNeverFinal(host: Host, s: State, stream: Stream, replies: nat -> Page, synced: bool)
    requires !s.open && !s.status.Ok()
    ensures !Pages(host, s, stream, replies, 0, FIRST_CURSOR, synced).1.Ok()
    ensures Pages(host, s, stream, replies, 0, FIRST_CURSOR, synced).2 <= PAGES
  {
    hide Dump, Ascii, Finish, WriteRecord, Arrive, ErrorRecord, Pages;
    var page := replies(0);
    FirstPage(host, s, stream, replies, synced);
    ClosedTakesNothing(host, s, page.elements);
    forall t: State, status: Status | !t.open ensures !Finish(host, t, status, synced).1.Ok() {
      ClosedIsRefused(host, t, status, synced);
    }
    ClosedWritesNothing(host, s, ErrorRecord(s.id, page.encoded));
    ClosedWritesNothing(host, s, ErrorRecord(s.id, page.sent));
  }

  lemma FirstPage(host: Host, s: State, stream: Stream, replies: nat -> Page, synced: bool)
    ensures var (t, outcome) := Visit(host, s, stream, replies(0), FIRST_CURSOR);
            Pages(host, s, stream, replies, 0, FIRST_CURSOR, synced)
            == match outcome
               case Fail(why) => var (u, final) := Single(host, t, ErrorRecord(t.id, why), synced); (u, final, 1)
               case Done(status) => var (u, final) := Finish(host, t, status, synced); (u, final, 1)
               case Next(next) => Pages(host, t, stream, replies, 1, next, synced)
  {
    hide Dump, Ascii, Finish, Single, Visit, ErrorRecord;
  }

  /** For any replies whatever the loop makes at most 1024 calls. If the log could be
      persisted it holds the items in order of arrival and one terminal, and it says
      `complete` exactly when every page but the last asked to be continued at another
      cursor, the last one ended the stream, and every item was decoded and spooled. */
  lemma PaginationIsHonest(host: Host, id: Text, limit: nat, open: bool, stream: Stream, replies: nat -> Page,
                           synced: bool)
    requires forall i: nat :: Honest(replies(i))
    ensures var (t, final, calls) := Pages(host, Created(id, limit, open), stream, replies, 0, FIRST_CURSOR, synced);
            calls <= PAGES && (final.Ok() ==> HonestStream(stream, replies, id, t, calls))
  {
    hide Dump, Ascii, Pages, HonestStream, Honest, Log.Clean;
    var start := Created(id, limit, open);
    if open {
      Log.CreatedIsClean(id, limit, open);
      assert Standing(host, start, stream, replies, 0, FIRST_CURSOR, start) by {
        assert Log.Adds(host, start, []) == start;
        assert Delivered(replies, 0) == [];
      }
      PagesAreHonest(host, start, stream, replies, 0, FIRST_CURSOR, start, synced);
    } else {
      NotCreatedFails();
      ClosedIsNeverFinal(host, start, stream, replies, synced);
    }
  }

  lemma NotCreatedFails()
    ensures !NOT_CREATED.Ok()
  {
  }
}
