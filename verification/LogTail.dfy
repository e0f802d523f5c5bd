/** Tailing the logs of running containers: timestamped lines are split, and a cursor per container moves
    past the newest one. Times are nanoseconds; how a stamp is parsed is a parameter. */
module LogTail {
  import opened Text
  import LineEmitter

  // ---- One fetch ----

  /** The line is a word that parses to t, a space, and m. */
  ghost predicate Stamped(parse: string -> Option<int>, line: string, t: int, m: string) {
    exists w :: ' ' !in w && line == w + " " + m && parse(w) == Some(t)
  }

  /** The line is of no such form. */
  ghost predicate Unstamped(parse: string -> Option<int>, line: string) {
    forall t, m :: !Stamped(parse, line, t, m)
  }

  /** A line of output: its stamp, if it starts with one, and its message. */
  datatype Item = Item(line: string, stamp: Option<int>, message: string)

  /** The item says what its line does. */
  ghost predicate Says(parse: string -> Option<int>, x: Item) {
    match x.stamp
    case Some(t) => Stamped(parse, x.line, t, x.message)
    case None => Unstamped(parse, x.line) && x.message == x.line
  }

  function FirstSpace(s: string): (k: nat)
    ensures k <= |s|
  {
    if s == "" || s[0] == ' ' then 0 else FirstSpace(s[1..]) + 1
  }

  function ItemOf(parse: string -> Option<int>, line: string): Item {
    var k := FirstSpace(line);
    if k < |line| && parse(line[..k]).Some? then Item(line, parse(line[..k]), line[k + 1..]) else Item(line, None, line)
  }

  lemma {:induction false} SpaceFirst(w: string, m: string)
    requires ' ' !in w
    ensures FirstSpace(w + " " + m) == |w|
  {
    if w != "" {
      assert (w + " " + m)[1..] == w[1..] + " " + m;
      SpaceFirst(w[1..], m);
    }
  }

  lemma {:induction false} SpaceFree(s: string)
    ensures ' ' !in s[..FirstSpace(s)]
    ensures FirstSpace(s) < |s| ==> s[FirstSpace(s)] == ' '
  {
    if s != "" && s[0] != ' ' {
      SpaceFree(s[1..]);
      assert s[..FirstSpace(s)] == [s[0]] + s[1..][..FirstSpace(s[1..])];
    }
  }

  lemma StampedCut(parse: string -> Option<int>, line: string, t: int, m: string)
    requires Stamped(parse, line, t, m)
    ensures ItemOf(parse, line) == Item(line, Some(t), m)
  {
    var w :| ' ' !in w && line == w + " " + m && parse(w) == Some(t);
    SpaceFirst(w, m);
    assert line[..|w|] == w && line[|w| + 1..] == m;
  }

  /** Every line is read as what it says, and a line says one thing only. */
  lemma LineSays(parse: string -> Option<int>, line: string)
    ensures Says(parse, ItemOf(parse, line))
    ensures forall t, m :: Stamped(parse, line, t, m) <==> ItemOf(parse, line) == Item(line, Some(t), m)
  {
    var k, x := FirstSpace(line), ItemOf(parse, line);
    SpaceFree(line);
    if x.stamp.Some? {
      assert line == line[..k] + " " + line[k + 1..];
      assert Stamped(parse, line, x.stamp.value, x.message);
    }
    forall t, m | Stamped(parse, line, t, m) ensures x == Item(line, Some(t), m) { StampedCut(parse, line, t, m); }
  }

  /** A line can be said in one way only. */
  lemma SaidOnce(parse: string -> Option<int>, x: Item)
    requires Says(parse, x)
    ensures x == ItemOf(parse, x.line)
  {
    LineSays(parse, x.line);
  }

  function Items(parse: string -> Option<int>, lines: seq<string>): seq<Item> {
    if lines == [] then [] else Items(parse, lines[..|lines| - 1]) + [ItemOf(parse, lines[|lines| - 1])]
  }

  function Messages(items: seq<Item>): seq<string> {
    if items == [] then [] else Messages(items[..|items| - 1]) + [items[|items| - 1].message]
  }

  /** The newest stamp. */
  function Newest(items: seq<Item>): Option<int> {
    if items == [] then None
    else
      var before, stamp := Newest(items[..|items| - 1]), items[|items| - 1].stamp;
      if stamp.None? then before
      else if before.None? || stamp.value > before.value then stamp
      else before
  }

  /** One nanosecond past the newest stamp, or where the fetch began. */
  function NextCursor(items: seq<Item>, since: int): int {
    match Newest(items) case None => since case Some(t) => t + 1
  }

  /** What a text holds, line by line. */
  function Parsed(parse: string -> Option<int>, text: string): seq<Item> { Items(parse, LineEmitter.Lines(text)) }

  function LastItems(items: seq<Item>, limit: nat): seq<Item> {
    if |items| > limit then items[|items| - limit..] else items
  }

  lemma {:induction false} MessagesAt(items: seq<Item>)
    ensures |Messages(items)| == |items|
    ensures forall k | 0 <= k < |items| :: Messages(items)[k] == items[k].message
  {
    if items != [] { MessagesAt(items[..|items| - 1]); }
  }

  lemma LastMessages(items: seq<Item>, limit: nat)
    ensures Messages(LastItems(items, limit)) == LineEmitter.LastN(Messages(items), limit)
  {
    MessagesAt(items);
    MessagesAt(LastItems(items, limit));
    assert |Messages(LastItems(items, limit))| == |LineEmitter.LastN(Messages(items), limit)|;
  }

  lemma {:induction false} NewestExact(items: seq<Item>)
    ensures Newest(items).None? <==> forall x | x in items :: x.stamp.None?
    ensures Newest(items).Some? ==> forall x | x in items && x.stamp.Some? :: x.stamp.value <= Newest(items).value
    ensures Newest(items).Some? ==> exists x | x in items :: x.stamp == Newest(items)
  {
    if items != [] {
      var init, last := items[..|items| - 1], items[|items| - 1];
      NewestExact(init);
      assert items == init + [last];
    }
  }

  lemma {:induction false} ItemsAt(parse: string -> Option<int>, lines: seq<string>)
    ensures |Items(parse, lines)| == |lines|
    ensures forall k | 0 <= k < |lines| :: Items(parse, lines)[k] == ItemOf(parse, lines[k])
  {
    if lines != [] { ItemsAt(parse, lines[..|lines| - 1]); }
  }

  /** One more item. */
  lemma ItemsNext(parse: string -> Option<int>, seen: seq<string>, l: string)
    ensures Items(parse, seen + [l]) == Items(parse, seen) + [ItemOf(parse, l)]
  {
    assert (seen + [l])[..|seen|] == seen;
  }

  lemma MessagesNext(items: seq<Item>, x: Item)
    ensures Messages(items + [x]) == Messages(items) + [x.message]
    ensures Newest(items + [x]) ==
            if x.stamp.None? then Newest(items)
            else if Newest(items).None? || x.stamp.value > Newest(items).value then x.stamp
            else Newest(items)
  {
    assert (items + [x])[..|items|] == items;
  }

  /** Cut a line at its first space and parse what is before. */
  method CutStamp(parse: string -> Option<int>, l: string) returns (stamp: Option<int>, message: string)
    ensures Item(l, stamp, message) == ItemOf(parse, l)
  {
    var k := FirstSpace(l);
    if k >= |l| { return None, l; }
    stamp := parse(l[..k]);
    message := if stamp.None? then l else l[k + 1..];
  }

  /** The loop over the raw lines. */
  method ReadLines(parse: string -> Option<int>, raw: seq<string>)
    returns (lines: seq<string>, newest: Option<int>, ghost items: seq<Item>)
    ensures items == Items(parse, LineEmitter.EmitAll(raw))
    ensures lines == Messages(items) && newest == Newest(items)
  {
    lines, newest, items := [], None, [];
    ghost var seen: seq<string> := [];
    for n := 0 to |raw|
      invariant seen == LineEmitter.EmitAll(raw[..n]) && items == Items(parse, seen)
      invariant lines == Messages(items) && newest == Newest(items)
    {
      assert raw[..n + 1][..n] == raw[..n];
      var l := LineEmitter.TrimLine(raw[n]);
      if l.None? { continue; }
      ItemsNext(parse, seen, l.value);
      seen := seen + [l.value];
      var stamp, message := CutStamp(parse, l.value);
      MessagesNext(items, Item(l.value, stamp, message));
      items := items + [Item(l.value, stamp, message)];
      lines := lines + [message];
      if stamp.Some? && (newest.None? || stamp.value > newest.value) { newest := stamp; }
    }
    assert raw[..|raw|] == raw;
  }

  method Cap(lines: seq<string>, limit: nat, ghost items: seq<Item>) returns (capped: seq<string>)
    requires lines == Messages(items)
    ensures capped == Messages(LastItems(items, limit))
  {
    LastMessages(items, limit);
    capped := if |lines| > limit then lines[|lines| - limit..] else lines;
  }

  // ---- What a fetch says of its lines ----

  /** The message of a line: what follows its stamp, or all of it. */
  ghost predicate MessageOf(parse: string -> Option<int>, line: string, m: string) {
    (exists t :: Stamped(parse, line, t, m)) || (Unstamped(parse, line) && m == line)
  }

  /** One message for each line, in order. */
  ghost predicate Reads(parse: string -> Option<int>, lines: seq<string>, messages: seq<string>) {
    |messages| == |lines| && forall k | 0 <= k < |lines| :: MessageOf(parse, lines[k], messages[k])
  }

  /** The messages of the last lines, as many as the limit allows. */
  ghost predicate LastOf(parse: string -> Option<int>, lines: seq<string>, limit: nat, messages: seq<string>) {
    Reads(parse, if |lines| > limit then lines[|lines| - limit..] else lines, messages)
  }

  /** next is one past the newest stamp of the lines, or since if none has one. */
  ghost predicate Passes(parse: string -> Option<int>, lines: seq<string>, since: int, next: int) {
    if forall l | l in lines :: Unstamped(parse, l) then next == since
    else
      && (exists l, t, m | l in lines :: Stamped(parse, l, t, m) && next == t + 1)
      && (forall l, t, m | l in lines && Stamped(parse, l, t, m) :: t < next)
  }

  lemma LineMessage(parse: string -> Option<int>, line: string)
    ensures MessageOf(parse, line, ItemOf(parse, line).message)
  {
    LineSays(parse, line);
  }

  lemma ItemsFrom(parse: string -> Option<int>, lines: seq<string>, j: nat)
    requires j <= |lines|
    ensures |Items(parse, lines)| == |lines| && Items(parse, lines)[j..] == Items(parse, lines[j..])
  {
    ItemsAt(parse, lines);
    ItemsAt(parse, lines[j..]);
  }

  lemma ItemsSay(parse: string -> Option<int>, lines: seq<string>, limit: nat)
    ensures LastOf(parse, lines, limit, Messages(LastItems(Items(parse, lines), limit)))
  {
    var j := if |lines| > limit then |lines| - limit else 0;
    ItemsFrom(parse, lines, j);
    AllSay(parse, lines[j..]);
    assert lines[0..] == lines;
  }

  lemma AllSay(parse: string -> Option<int>, lines: seq<string>)
    ensures Reads(parse, lines, Messages(Items(parse, lines)))
  {
    var items := Items(parse, lines);
    ItemsAt(parse, lines);
    MessagesAt(items);
    forall k | 0 <= k < |lines| ensures MessageOf(parse, lines[k], Messages(items)[k]) { LineMessage(parse, lines[k]); }
  }

  lemma ItemFrom(parse: string -> Option<int>, lines: seq<string>, x: Item)
    requires x in Items(parse, lines)
    ensures x.line in lines && x == ItemOf(parse, x.line)
  {
    ItemsAt(parse, lines);
    var k :| 0 <= k < |lines| && Items(parse, lines)[k] == x;
  }

  lemma ItemInto(parse: string -> Option<int>, lines: seq<string>, l: string, t: int, m: string)
    requires l in lines && Stamped(parse, l, t, m)
    ensures Item(l, Some(t), m) in Items(parse, lines)
  {
    ItemsAt(parse, lines);
    StampedCut(parse, l, t, m);
    var k :| 0 <= k < |lines| && lines[k] == l;
  }

  lemma CursorPasses(parse: string -> Option<int>, lines: seq<string>, since: int)
    ensures Passes(parse, lines, since, NextCursor(Items(parse, lines), since))
  {
    var items := Items(parse, lines);
    NewestExact(items);
    forall l, t, m | l in lines && Stamped(parse, l, t, m)
      ensures Newest(items).Some? && t <= Newest(items).value
    {
      ItemInto(parse, lines, l, t, m);
    }
    if Newest(items).Some? {
      var x :| x in items && x.stamp == Newest(items);
      ItemFrom(parse, lines, x);
      LineSays(parse, x.line);
    }
  }

  /** splitTimestampedLines. */
  method SplitTimestampedLines(parse: string -> Option<int>, s: string, since: int, limit: nat)
    returns (lines: seq<string>, next: int)
    ensures lines == Messages(LastItems(Parsed(parse, s), limit))
    ensures next == NextCursor(Parsed(parse, s), since)
    ensures LastOf(parse, LineEmitter.Lines(s), limit, lines)
    ensures Passes(parse, LineEmitter.Lines(s), since, next)
  {
    ItemsSay(parse, LineEmitter.Lines(s), limit);
    CursorPasses(parse, LineEmitter.Lines(s), since);
    var newest;
    ghost var items;
    lines, newest, items := ReadLines(parse, Split(LineEmitter.Unix(s), '\n'));
    assert items == Parsed(parse, s) by { LineEmitter.UnixLines(s); }
    lines := Cap(lines, limit, items);
    next := if newest.Some? then newest.value + 1 else since;
  }

  /** The end of logsSince, once the daemon has answered. */
  method LogsSince(parse: string -> Option<int>, text: string, since: int, limit: nat)
    returns (lines: seq<string>, next: int)
    ensures lines == Messages(LastItems(Parsed(parse, text), limit))
    ensures next == NextCursor(Parsed(parse, text), since)
  {
    lines, next := SplitTimestampedLines(parse, text, since, limit);
  }

  // ---- The loop ----

  /** One delivery: the items of a container sent to the control plane in one report. */
  datatype Delivery = Delivery(id: string, items: seq<Item>)

  /** The daemon returns nothing from before the cursor, nor from the future. */
  ghost predicate Honest(parse: string -> Option<int>, text: string, since: int, now: int) {
    forall l, t, m | l in LineEmitter.Lines(text) && Stamped(parse, l, t, m) :: since <= t <= now
  }

  lemma HonestItems(parse: string -> Option<int>, text: string, since: int, now: int)
    requires Honest(parse, text, since, now)
    ensures forall x | x in Parsed(parse, text) && x.stamp.Some? :: since <= x.stamp.value <= now
  {
    forall x | x in Parsed(parse, text) && x.stamp.Some? ensures since <= x.stamp.value <= now {
      ItemFrom(parse, LineEmitter.Lines(text), x);
      LineSays(parse, x.line);
    }
  }

  predicate Earlier(a: Delivery, b: Delivery) {
    forall x, y | x in a.items && y in b.items && x.stamp.Some? && y.stamp.Some? :: x.stamp.value < y.stamp.value
  }

  /** Of one container, later deliveries have only later stamps: no stamped line goes out twice. */
  predicate NoneTwice(sent: seq<Delivery>) {
    forall i, j | 0 <= i < j < |sent| && sent[i].id == sent[j].id :: Earlier(sent[i], sent[j])
  }

  /** Stamps already sent lie before the container's cursor, or at or before the last tick. */
  predicate Behind(d: Delivery, cursors: map<string, int>, clock: int) {
    forall x | x in d.items && x.stamp.Some? ::
      x.stamp.value <= clock && (d.id in cursors ==> x.stamp.value < cursors[d.id])
  }

  lemma FetchBounds(parse: string -> Option<int>, text: string, since: int, now: int, limit: nat)
    requires Honest(parse, text, since, now) && since <= now + 1
    ensures var items := Parsed(parse, text);
            && since <= NextCursor(items, since) <= now + 1
            && forall x | x in LastItems(items, limit) && x.stamp.Some? ::
              since <= x.stamp.value <= now && x.stamp.value < NextCursor(items, since)
  {
    var items := Parsed(parse, text);
    HonestItems(parse, text, since, now);
    NewestExact(items);
    assert forall x | x in LastItems(items, limit) :: x in items;
  }

  /** All deliveries say what their lines do. */
  ghost predicate AllSaid(parse: string -> Option<int>, sent: seq<Delivery>) {
    forall d, x | d in sent && x in d.items :: Says(parse, x)
  }

  lemma AddSaid(parse: string -> Option<int>, sent: seq<Delivery>, id: string, text: string, limit: nat)
    requires AllSaid(parse, sent)
    ensures AllSaid(parse, sent + [Delivery(id, LastItems(Parsed(parse, text), limit))])
  {
    var items := Parsed(parse, text);
    forall x | x in LastItems(items, limit) ensures Says(parse, x) {
      assert x in items;
      ItemFrom(parse, LineEmitter.Lines(text), x);
      LineSays(parse, x.line);
    }
  }

  ghost predicate Sound(sent: seq<Delivery>, cursors: map<string, int>, clock: int) {
    && NoneTwice(sent)
    && (forall d | d in sent :: Behind(d, cursors, clock))
    && (forall id | id in cursors :: cursors[id] <= clock + 1)
  }

  /** Everything in the delivery was stamped before now. */
  predicate Before(d: Delivery, now: int) { forall x | x in d.items && x.stamp.Some? :: x.stamp.value < now }

  lemma SeedSound(sent: seq<Delivery>, cursors: map<string, int>, clock: int, id: string)
    requires Sound(sent, cursors, clock) && id !in cursors
    requires forall d | d in sent && d.id == id :: Before(d, clock)
    ensures Sound(sent, cursors[id := clock], clock)
  {
    forall d | d in sent ensures Behind(d, cursors[id := clock], clock) {
      assert Behind(d, cursors, clock);
    }
  }

  /** A fetch's items are behind its new cursor and past everything sent of its container. */
  lemma AdvanceSound(sent: seq<Delivery>, cursors: map<string, int>, clock: int, id: string, items: seq<Item>,
          next: int)
    requires Sound(sent, cursors, clock) && id in cursors && cursors[id] <= next <= clock + 1
    requires forall x | x in items && x.stamp.Some? :: cursors[id] <= x.stamp.value <= clock && x.stamp.value < next
    ensures Sound(sent, cursors[id := next], clock)
    ensures Sound(sent + [Delivery(id, items)], cursors[id := next], clock)
  {
    var d, cursors' := Delivery(id, items), cursors[id := next];
    forall e | e in sent ensures Behind(e, cursors', clock) {
      assert Behind(e, cursors, clock);
    }
    forall e | e in sent && e.id == id ensures Earlier(e, d) {
      assert Behind(e, cursors, clock);
    }
    AddDelivery(sent, d);
    assert Behind(d, cursors', clock);
  }

  lemma FetchSound(sent: seq<Delivery>, cursors: map<string, int>, clock: int, id: string,
          parse: string -> Option<int>, text: string, limit: nat)
    requires Sound(sent, cursors, clock) && id in cursors && Honest(parse, text, cursors[id], clock)
    ensures var items, next := LastItems(Parsed(parse, text), limit), NextCursor(Parsed(parse, text), cursors[id]);
            && Sound(sent, cursors[id := next], clock)
            && Sound(sent + [Delivery(id, items)], cursors[id := next], clock)
            && |Messages(items)| == |items|
  {
    var items := LastItems(Parsed(parse, text), limit);
    FetchBounds(parse, text, cursors[id], clock, limit);
    MessagesAt(items);
    AdvanceSound(sent, cursors, clock, id, items, NextCursor(Parsed(parse, text), cursors[id]));
  }

  lemma AddDelivery(sent: seq<Delivery>, d: Delivery)
    requires NoneTwice(sent) && forall e | e in sent && e.id == d.id :: Earlier(e, d)
    ensures NoneTwice(sent + [d])
  {
    var all := sent + [d];
    forall i, j | 0 <= i < j < |all| && all[i].id == all[j].id ensures Earlier(all[i], all[j]) {
      if j == |sent| { assert all[i] in sent; }
    }
  }

  class Tail {
    const parse: string -> Option<int>
    const limit: nat
    var cursors: map<string, int>
    ghost var sent: seq<Delivery>
    ghost var clock: int

    ghost predicate Valid()
      reads this
    {
      Sound(sent, cursors, clock) && AllSaid(parse, sent)
    }

    constructor (parse: string -> Option<int>, limit: nat, now: int)
      ensures Valid() && cursors == map[] && sent == [] && clock == now
      ensures this.parse == parse && this.limit == limit
    {
      this.parse, this.limit := parse, limit;
      cursors, sent, clock := map[], [], now;
    }

    /** Seed or advance one container's cursor. A fetch that fails leaves the cursor. */
    method Follow(id: string, fetched: Option<string>, now: int)
      requires Valid() && clock == now
      requires id in cursors && fetched.Some? ==> Honest(parse, fetched.value, cursors[id], now)
      requires id !in cursors ==> forall d | d in sent && d.id == id :: Before(d, now)
      modifies this`cursors, this`sent
      ensures Valid() && cursors == old(cursors)[id := Moved(parse, id, old(cursors), fetched, now)]
      ensures sent == old(sent) + Sends(parse, limit, id, old(cursors), fetched)
    {
      if id !in cursors {
        SeedSound(sent, cursors, now, id);
        cursors := cursors[id := now];
        return;
      }
      if fetched.Some? { Advance(id, fetched.value, now); }
    }

    /** Split what was fetched, move the cursor, and deliver the lines. */
    method Advance(id: string, text: string, now: int)
      requires Valid() && clock == now && id in cursors && Honest(parse, text, cursors[id], now)
      modifies this`cursors, this`sent
      ensures Valid()
      ensures cursors == old(cursors)[id := NextCursor(Parsed(parse, text), old(cursors)[id])]
      ensures sent == old(sent) + Sends(parse, limit, id, old(cursors), Some(text))
    {
      ghost var items := LastItems(Parsed(parse, text), limit);
      FetchSound(sent, cursors, now, id, parse, text, limit);
      AddSaid(parse, sent, id, text, limit);
      var lines, next := LogsSince(parse, text, cursors[id], limit);
      cursors := cursors[id := next];
      if |lines| > 0 { sent := sent + [Delivery(id, items)]; }
    }

    /** Some containers of a list have been followed since a tick began. */
    ghost predicate Reached(done: seq<string>, held: map<string, int>, fetched: map<string, string>,
            before: seq<Delivery>, now: int)
      reads this
    {
      && Valid() && clock == now
      && cursors == AllMoved(parse, done, held, fetched, now)
      && sent == before + Deliveries(parse, limit, done, held, fetched)
      && forall d | d in sent && d.id !in held :: Before(d, now)
    }

    method FollowNext(id: string, ghost done: seq<string>, ghost held: map<string, int>, fetched: map<string, string>,
            ghost before: seq<Delivery>, now: int)
      requires Reached(done, held, fetched, before, now) && id !in done
      requires id in held && id in fetched ==> Honest(parse, fetched[id], held[id], now)
      modifies this`cursors, this`sent
      ensures Reached(done + [id], held, fetched, before, now)
    {
      AllMovedAt(parse, done, held, fetched, now, id);
      ghost var at := cursors;
      Follow(id, if id in fetched then Some(fetched[id]) else None, now);
      SameMove(parse, limit, id, at, held, Fetched(fetched, id), now);
      assert (done + [id])[..|done|] == done;
      Assoc(before, Deliveries(parse, limit, done, held, fetched), Sends(parse, limit, id, held, Fetched(fetched, id)));
    }

    /** One tick: list the running containers, follow each, and forget those that are gone. A list that
        fails leaves everything. Ticks come at increasing times. */
    method Tick(running: Option<seq<string>>, fetched: map<string, string>, now: int)
      requires Valid() && clock < now
      requires forall id | id in cursors && id in fetched :: Honest(parse, fetched[id], cursors[id], now)
      requires running.Some? ==> forall i, j | 0 <= i < j < |running.value| :: running.value[i] != running.value[j]
      modifies this
      ensures Valid() && clock == now
      ensures running.None? ==> cursors == old(cursors) && sent == old(sent)
      ensures running.Some? ==> forall id :: id in cursors <==> id in running.value
      ensures running.Some? ==>
                forall id | id in cursors :: cursors[id] == Moved(parse, id, old(cursors), Fetched(fetched, id), now)
      ensures running.Some? ==> sent == old(sent) + Deliveries(parse, limit, running.value, old(cursors), fetched)
    {
      ghost var before, held := sent, cursors;
      EarlierStamps(sent, cursors, clock, now);
      clock := now;
      if running.None? { return; }
      var ids := running.value;
      for n := 0 to |ids|
        invariant Reached(ids[..n], held, fetched, before, now)
      {
        assert ids[..n + 1] == ids[..n] + [ids[n]] && ids[n] !in ids[..n];
        FollowNext(ids[n], ids[..n], held, fetched, before, now);
      }
      assert ids[..|ids|] == ids;
      forall id { AllMovedAt(parse, ids, held, fetched, now, id); }
      cursors := map id | id in cursors && id in ids :: cursors[id];
    }
  }

  /** What was sent before a tick was stamped before it. */
  lemma EarlierStamps(sent: seq<Delivery>, cursors: map<string, int>, clock: int, now: int)
    requires Sound(sent, cursors, clock) && clock < now
    ensures Sound(sent, cursors, now)
    ensures forall d | d in sent :: Before(d, now)
  {
    forall d | d in sent ensures Behind(d, cursors, now) && Before(d, now) { assert Behind(d, cursors, clock); }
  }

  /** The cursors once the containers of a list have been followed. */
  function AllMoved(parse: string -> Option<int>, ids: seq<string>, cursors: map<string, int>, fetched: map<string,
          string>, now: int): map<string, int> {
    if ids == [] then cursors
    else
      var id := ids[|ids| - 1];
      var before := AllMoved(parse, ids[..|ids| - 1], cursors, fetched, now);
      before[id := Moved(parse, id, cursors, Fetched(fetched, id), now)]
  }

  lemma {:induction false} AllMovedAt(parse: string -> Option<int>, ids: seq<string>, cursors: map<string, int>,
          fetched: map<string, string>, now: int, x: string)
    ensures x in AllMoved(parse, ids, cursors, fetched, now) <==> x in cursors || x in ids
    ensures x in AllMoved(parse, ids, cursors, fetched, now) ==>
              AllMoved(parse, ids, cursors, fetched, now)[x] ==
                if x in ids then Moved(parse, x, cursors, Fetched(fetched, x), now) else cursors[x]
  {
    if ids != [] {
      AllMovedAt(parse, ids[..|ids| - 1], cursors, fetched, now, x);
      assert ids == ids[..|ids| - 1] + [ids[|ids| - 1]];
    }
  }

  /** A container that is still tracked never has its cursor moved back. */
  lemma CursorNeverDecreases(parse: string -> Option<int>, id: string, cursors: map<string, int>,
          fetched: Option<string>, now: int)
    requires id in cursors && cursors[id] <= now + 1
    requires fetched.Some? ==> Honest(parse, fetched.value, cursors[id], now)
    ensures cursors[id] <= Moved(parse, id, cursors, fetched, now) <= now + 1
  {
    if fetched.Some? { FetchBounds(parse, fetched.value, cursors[id], now, 0); }
  }

  function Fetched(fetched: map<string, string>, id: string): Option<string> {
    if id in fetched then Some(fetched[id]) else None
  }

  /** Where a container's cursor goes: seeded at the time of the tick, or past what was fetched. */
  function Moved(parse: string -> Option<int>, id: string, cursors: map<string, int>, fetched: Option<string>,
          now: int): int {
    if id !in cursors then now
    else if fetched.None? then cursors[id]
    else NextCursor(Parsed(parse, fetched.value), cursors[id])
  }

  /** What is delivered of a container: nothing on first sight, then the last lines of each fetch. */
  function Sends(parse: string -> Option<int>, limit: nat, id: string, cursors: map<string, int>,
          fetched: Option<string>): seq<Delivery> {
    if id !in cursors || fetched.None? || LastItems(Parsed(parse, fetched.value), limit) == [] then []
    else [Delivery(id, LastItems(Parsed(parse, fetched.value), limit))]
  }

  function Deliveries(parse: string -> Option<int>, limit: nat, ids: seq<string>, cursors: map<string, int>,
          fetched: map<string, string>): seq<Delivery> {
    if ids == [] then []
    else
      var id := ids[|ids| - 1];
      Deliveries(parse, limit, ids[..|ids| - 1], cursors, fetched)
        + Sends(parse, limit, id, cursors, Fetched(fetched, id))
  }

  lemma SameMove(parse: string -> Option<int>, limit: nat, id: string, a: map<string, int>, b: map<string, int>,
          fetched: Option<string>, now: int)
    requires id in a <==> id in b
    requires id in a ==> a[id] == b[id]
    ensures Moved(parse, id, a, fetched, now) == Moved(parse, id, b, fetched, now)
    ensures Sends(parse, limit, id, a, fetched) == Sends(parse, limit, id, b, fetched)
  {
  }

  // ---- What a tick delivers and where the cursors go, on the raw lines ----

  /** The items are one for each line, in order, and say what the lines do. */
  ghost predicate Itemised(parse: string -> Option<int>, lines: seq<string>, items: seq<Item>) {
    |items| == |lines| && forall k | 0 <= k < |lines| :: items[k].line == lines[k] && Says(parse, items[k])
  }

  lemma ItemisedOnce(parse: string -> Option<int>, lines: seq<string>, items: seq<Item>)
    ensures Itemised(parse, lines, items) <==> items == Items(parse, lines)
  {
    ItemsAt(parse, lines);
    forall k | 0 <= k < |lines| ensures Says(parse, Items(parse, lines)[k]) { LineSays(parse, lines[k]); }
    if Itemised(parse, lines, items) {
      forall k | 0 <= k < |lines| ensures items[k] == Items(parse, lines)[k] { SaidOnce(parse, items[k]); }
    }
  }

  /** What is kept of a fetched text: its last lines. */
  function Kept(text: string, limit: nat): seq<string> {
    var lines := LineEmitter.Lines(text);
    if |lines| > limit then lines[|lines| - limit..] else lines
  }

  lemma KeptItems(parse: string -> Option<int>, text: string, limit: nat)
    ensures LastItems(Parsed(parse, text), limit) == Items(parse, Kept(text, limit))
  {
    var lines := LineEmitter.Lines(text);
    var j := if |lines| > limit then |lines| - limit else 0;
    ItemsFrom(parse, lines, j);
    assert lines[0..] == lines;
  }

  /** A tick delivers, of every running container that was known before and whose logs came, the last lines of
      what came, unless there are none; and it delivers nothing else. */
  lemma {:induction false} DeliveredExactly(parse: string -> Option<int>, limit: nat, ids: seq<string>,
          cursors: map<string, int>, fetched: map<string, string>, d: Delivery)
    ensures d in Deliveries(parse, limit, ids, cursors, fetched) <==>
              && d.id in ids && d.id in cursors && d.id in fetched
              && d.items != [] && Itemised(parse, Kept(fetched[d.id], limit), d.items)
  {
    if ids != [] {
      var init, id := ids[..|ids| - 1], ids[|ids| - 1];
      assert ids == init + [id];
      DeliveredExactly(parse, limit, init, cursors, fetched, d);
      if d.id == id && id in fetched {
        KeptItems(parse, fetched[id], limit);
        ItemisedOnce(parse, Kept(fetched[id], limit), d.items);
      }
    }
  }

  /** A known container's cursor goes past every stamp that came, to one past the newest; the cursor of one just
      seen is the time of the tick; and a fetch that failed, or brought no stamp, leaves it. */
  lemma MovedExactly(parse: string -> Option<int>, id: string, cursors: map<string, int>, fetched: Option<string>,
          now: int)
    ensures id !in cursors ==> Moved(parse, id, cursors, fetched, now) == now
    ensures id in cursors && fetched.None? ==> Moved(parse, id, cursors, fetched, now) == cursors[id]
    ensures id in cursors && fetched.Some? ==>
              Passes(parse, LineEmitter.Lines(fetched.value), cursors[id], Moved(parse, id, cursors, fetched, now))
  {
    if id in cursors && fetched.Some? { CursorPasses(parse, LineEmitter.Lines(fetched.value), cursors[id]); }
  }

  /** Of one container, no line that starts with a stamp is delivered twice. */
  lemma NoLineTwice(parse: string -> Option<int>, sent: seq<Delivery>, i: nat, j: nat, x: Item, y: Item, t: int,
          m: string)
    requires NoneTwice(sent) && AllSaid(parse, sent)
    requires i < j < |sent| && sent[i].id == sent[j].id && x in sent[i].items && y in sent[j].items
    requires Stamped(parse, x.line, t, m)
    ensures y.line != x.line
  {
    if y.line == x.line {
      assert sent[i] in sent && sent[j] in sent;
      SaidOnce(parse, x);
      SaidOnce(parse, y);
      StampedCut(parse, x.line, t, m);
    }
  }
}
