/** The local fallback comment store: a newest-first list of at most 500
    comments kept in the browser's local storage, a list of subscriber
    callbacks that are handed the whole list on every change, and a
    broadcast channel that tells other tabs to re-read the storage. */
module MockStore {
  import opened Comments

  /** The stored list keeps at most this many comments. */
  const Capacity := 500
  /** The message type posted on the broadcast channel after a change. */
  const UpdatedMessage := "comments_updated"

  // ---------------------------------------------------------------------------
  // Identifiers: `${now}-${suffix}`

  predicate IsDigit(c: char)
  {
    '0' <= c <= '9'
  }

  predicate AllDigits(s: string)
  {
    forall k :: 0 <= k < |s| ==> IsDigit(s[k])
  }

  function DigitChar(d: nat): (c: char)
    requires d < 10
    ensures IsDigit(c) && c as int - '0' as int == d
  {
    ('0' as int + d) as char
  }

  /** How JavaScript writes a non-negative integer in a template string: its
      decimal digits, with no leading zero. */
  function DecimalString(n: nat): (s: string)
    ensures |s| >= 1 && AllDigits(s)
    ensures s[0] == '0' ==> n == 0
  {
    if n < 10 then [DigitChar(n)] else DecimalString(n / 10) + [DigitChar(n % 10)]
  }

  /** The number a string of decimal digits denotes. */
  function DecimalValue(s: string): nat
    requires AllDigits(s)
  {
    if s == [] then 0 else DecimalValue(s[..|s| - 1]) * 10 + (s[|s| - 1] as int - '0' as int)
  }

  lemma {:induction false} DecimalRoundTrip(n: nat)
    ensures DecimalValue(DecimalString(n)) == n
  {
    if n >= 10 {
      var s := DecimalString(n);
      assert s[..|s| - 1] == DecimalString(n / 10);
      DecimalRoundTrip(n / 10);
    }
  }

  /** Different timestamps are written differently. */
  lemma DecimalStringInjective(a: nat, b: nat)
    requires DecimalString(a) == DecimalString(b)
    ensures a == b
  {
    DecimalRoundTrip(a);
    DecimalRoundTrip(b);
  }

  /** A new comment's id: the timestamp, a dash, and a random base-36
      suffix (here a parameter). */
  function NewId(now: nat, suffix: string): string
  {
    DecimalString(now) + "-" + suffix
  }

  /** The id starts with the timestamp's digits, which end at the first
      dash and denote the timestamp again. */
  lemma NewIdStartsWithTimestamp(now: nat, suffix: string)
    ensures var p := DecimalString(now);
      |p| < |NewId(now, suffix)| && NewId(now, suffix)[..|p|] == p && NewId(now, suffix)[|p|] == '-' &&
      (forall k :: 0 <= k < |p| ==> NewId(now, suffix)[k] != '-') &&
      DecimalValue(NewId(now, suffix)[..|p|]) == now
  {
    var p := DecimalString(now);
    assert NewId(now, suffix)[..|p|] == p;
    DecimalRoundTrip(now);
  }

  // ---------------------------------------------------------------------------
  // The new comment and the new list

  /** `name?.trim() || undefined`: the trimmed name, absent when there is no
      name or it is all white space. */
  function TrimmedName(name: Option<string>): (r: Option<string>)
    ensures r.Some? ==> name.Some? && r.value == Trim(name.value) && r.value != ""
  {
    if name.Some? && Trim(name.value) != "" then Some(Trim(name.value)) else None
  }

  /** The name is kept exactly when it is present and not all white space. */
  lemma TrimmedNameKept(name: Option<string>)
    ensures TrimmedName(name).Some? <==> name.Some? && !AllSpace(name.value)
  {
    if name.Some? {
      TrimEmptyIffBlank(name.value);
    }
  }

  /** The comment addComment creates at time `now`: stamped with `now`, its
      text trimmed (no longer than given, and without white space at either
      end), and its name, when kept, trimmed and non-empty. */
  function NewItem(name: Option<string>, comment: string, now: nat, suffix: string): (it: CommentItem)
    ensures it.createdAt == now
    ensures |it.comment| <= |comment|
    ensures it.comment == [] || (!IsSpace(it.comment[0]) && !IsSpace(it.comment[|it.comment| - 1]))
    ensures it.name.Some? ==> name.Some? && it.name.value != "" && |it.name.value| <= |name.value|
  {
    CommentItem(TrimmedName(name), Trim(comment), now, NewId(now, suffix))
  }

  /** `[item, ...items].slice(0, 500)`: the new comment first, then the
      older ones in their order, cut to the capacity. */
  function Prepend(item: CommentItem, items: seq<CommentItem>): (r: seq<CommentItem>)
    ensures |r| == if |items| < Capacity then |items| + 1 else Capacity
    ensures r[0] == item && r[1..] == items[..|r| - 1]
  {
    ([item] + items)[..if |items| < Capacity then |items| + 1 else Capacity]
  }

  /** Below the capacity nothing is dropped; at it, exactly the oldest
      comment is. */
  lemma PrependDropsOnlyOverflow(item: CommentItem, items: seq<CommentItem>)
    ensures |items| < Capacity ==> Prepend(item, items) == [item] + items
    ensures |items| == Capacity ==> Prepend(item, items) == [item] + items[..Capacity - 1]
  {
    var r := Prepend(item, items);
    assert r == [r[0]] + r[1..];
  }

  // ---------------------------------------------------------------------------
  // Subscribers

  /** The identity of a subscriber callback. */
  type Callback = nat

  /** One call of a subscriber callback with a snapshot of the list. */
  datatype Delivery = Delivery(callback: Callback, items: seq<CommentItem>)

  /** The handle subscribeComments returns; calling it unsubscribes. */
  datatype Unsubscriber = Unsubscriber(callback: Callback)

  /** `subs.filter((s) => s !== cb)`: what it keeps is stated by the
      lemmas below. */
  function Without(subs: seq<Callback>, cb: Callback): (r: seq<Callback>)
    ensures |r| <= |subs|
  {
    if subs == [] then [] else (if subs[0] == cb then [] else [subs[0]]) + Without(subs[1..], cb)
  }

  /** Every registration of `cb` goes, and every other one stays, with its
      multiplicity. */
  lemma {:induction false} WithoutMultiset(subs: seq<Callback>, cb: Callback)
    ensures multiset(Without(subs, cb)) == multiset(subs)[cb := 0]
  {
    if subs != [] {
      var rest := Without(subs[1..], cb);
      WithoutMultiset(subs[1..], cb);
      assert subs == [subs[0]] + subs[1..];
      assert multiset(subs) == multiset{subs[0]} + multiset(subs[1..]);
      if subs[0] == cb {
        assert Without(subs, cb) == rest;
      } else {
        assert Without(subs, cb) == [subs[0]] + rest;
        assert multiset([subs[0]] + rest) == multiset{subs[0]} + multiset(rest);
      }
    }
  }

  /** Filtering distributes over concatenation, so the subscribers that
      stay keep their relative order. */
  lemma {:induction false} WithoutConcat(a: seq<Callback>, b: seq<Callback>, cb: Callback)
    ensures Without(a + b, cb) == Without(a, cb) + Without(b, cb)
  {
    if a == [] {
      assert a + b == b;
    } else {
      assert (a + b)[0] == a[0];
      assert (a + b)[1..] == a[1..] + b;
      WithoutConcat(a[1..], b, cb);
    }
  }

  /** Removing a callback that is not registered changes nothing. */
  lemma {:induction false} WithoutAbsent(subs: seq<Callback>, cb: Callback)
    requires cb !in subs
    ensures Without(subs, cb) == subs
  {
    if subs != [] {
      assert subs[0] != cb && cb !in subs[1..];
      WithoutAbsent(subs[1..], cb);
      assert subs == [subs[0]] + subs[1..];
    }
  }

  /** Handing `items` to each subscriber in registration order. */
  function Deliveries(subs: seq<Callback>, items: seq<CommentItem>): (d: seq<Delivery>)
    ensures |d| == |subs|
  {
    if subs == [] then []
    else Deliveries(subs[..|subs| - 1], items) + [Delivery(subs[|subs| - 1], items)]
  }

  /** Each subscriber, in order, receives exactly `items`. */
  lemma {:induction false} DeliveriesAt(subs: seq<Callback>, items: seq<CommentItem>)
    ensures |Deliveries(subs, items)| == |subs|
    ensures forall k :: 0 <= k < |subs| ==> Deliveries(subs, items)[k] == Delivery(subs[k], items)
  {
    if subs != [] {
      DeliveriesAt(subs[..|subs| - 1], items);
    }
  }

  /** After unsubscribing, a callback is not handed the list again, while
      every other registered callback still is. */
  lemma UnsubscribedNotNotified(subs: seq<Callback>, cb: Callback, items: seq<CommentItem>)
    ensures forall d :: d in Deliveries(Without(subs, cb), items) ==> d.callback != cb
    ensures forall other :: other in subs && other != cb ==> Delivery(other, items) in Deliveries(Without(subs, cb), items)
  {
    var rest := Without(subs, cb);
    DeliveriesAt(rest, items);
    WithoutMultiset(subs, cb);
    assert cb !in rest by {
      assert multiset(rest)[cb] == 0;
    }
    forall other | other in subs && other != cb
      ensures Delivery(other, items) in Deliveries(rest, items)
    {
      assert multiset(subs)[other] > 0;
      assert other in multiset(rest);
      var k :| 0 <= k < |rest| && rest[k] == other;
      assert Deliveries(rest, items)[k] == Delivery(other, items);
    }
  }

  // ---------------------------------------------------------------------------
  // The store

  /** What local storage holds under the comments key: nothing (or an empty
      string), text that does not parse, or a parsed list. */
  datatype Stored = Absent | Unparsable | Holds(items: seq<CommentItem>)

  class CommentStore {
    /** Whether `window` exists; during server rendering it does not. */
    const inBrowser: bool
    /** Whether a broadcast channel to other tabs was opened. */
    const hasChannel: bool
    var storage: Stored
    /** The registered callbacks, in registration order. */
    var subscribers: seq<Callback>
    /** Every callback invocation so far, oldest first. */
    var deliveries: seq<Delivery>
    /** How many change messages were posted to other tabs. */
    var broadcasts: nat

    constructor (inBrowser: bool, channelSupported: bool, initial: Stored)
      ensures this.inBrowser == inBrowser && hasChannel == (inBrowser && channelSupported)
      ensures storage == initial && subscribers == [] && deliveries == [] && broadcasts == 0
    {
      this.inBrowser := inBrowser;
      hasChannel := inBrowser && channelSupported;
      storage := initial;
      subscribers := [];
      deliveries := [];
      broadcasts := 0;
    }

    /** readFromStorage: the parsed list, or the empty list outside a
        browser, when nothing is stored, or when the text does not parse. */
    function ReadFromStorage(): (items: seq<CommentItem>)
      reads this`storage
      ensures !inBrowser || storage == Absent || storage == Unparsable ==> items == []
      ensures inBrowser && storage.Holds? ==> items == storage.items
    {
      if inBrowser && storage.Holds? then storage.items else []
    }

    /** getComments */
    method GetComments() returns (items: seq<CommentItem>)
      ensures items == ReadFromStorage()
    {
      items := ReadFromStorage();
    }

    /** writeToStorage: in a browser the list is stored and reads back
        unchanged; elsewhere nothing happens. */
    method WriteToStorage(items: seq<CommentItem>)
      modifies this`storage
      ensures storage == if inBrowser then Holds(items) else old(storage)
      ensures inBrowser ==> ReadFromStorage() == items
    {
      if inBrowser {
        storage := Holds(items);
      }
    }

    /** `subscribers.forEach((cb) => cb(items))` */
    method NotifyAll(items: seq<CommentItem>)
      modifies this`deliveries
      ensures deliveries == old(deliveries) + Deliveries(subscribers, items)
    {
      var i := 0;
      while i < |subscribers|
        invariant 0 <= i <= |subscribers|
        invariant deliveries == old(deliveries) + Deliveries(subscribers[..i], items)
      {
        assert subscribers[..i + 1][..i] == subscribers[..i];
        deliveries := deliveries + [Delivery(subscribers[i], items)];
        i := i + 1;
      }
      assert subscribers[..i] == subscribers;
    }

    /** addComment at time `now` with random suffix `suffix`: the new
        comment goes in front of the stored list, the list is cut to 500
        and written back, other tabs are told, and every subscriber is
        handed exactly the written list. */
    method AddComment(name: Option<string>, comment: string, now: nat, suffix: string)
      modifies this`storage, this`deliveries, this`broadcasts
      ensures var written := Prepend(NewItem(name, comment, now, suffix), old(ReadFromStorage()));
        && storage == (if inBrowser then Holds(written) else old(storage))
        && deliveries == old(deliveries) + Deliveries(subscribers, written)
      ensures broadcasts == old(broadcasts) + (if hasChannel then 1 else 0)
    {
      ghost var delivered := deliveries;
      var newItem := NewItem(name, comment, now, suffix);
      var stored := GetComments();
      var items := Prepend(newItem, stored);
      WriteToStorage(items);
      if hasChannel {
        broadcasts := broadcasts + 1;
      }
      assert deliveries == delivered;
      NotifyAll(items);
      assert deliveries == delivered + Deliveries(subscribers, items);
    }

    /** subscribeComments: register the callback, hand it the current list
        at once, and return the handle that unregisters it. */
    method SubscribeComments(cb: Callback) returns (unsubscribe: Unsubscriber)
      modifies this`subscribers, this`deliveries
      ensures subscribers == old(subscribers) + [cb]
      ensures deliveries == old(deliveries) + [Delivery(cb, ReadFromStorage())]
      ensures unsubscribe.callback == cb
    {
      subscribers := subscribers + [cb];
      var items := GetComments();
      deliveries := deliveries + [Delivery(cb, items)];
      unsubscribe := Unsubscriber(cb);
    }

    /** The closure subscribeComments returns: drop the callback, keep the
        others in order. */
    method Unsubscribe(handle: Unsubscriber)
      modifies this`subscribers
      ensures subscribers == Without(old(subscribers), handle.callback)
    {
      subscribers := Without(subscribers, handle.callback);
    }

    /** A message from another tab: on `comments_updated`, re-read the
        storage and hand the list to every subscriber; ignore anything else. */
    method OnBroadcast(messageType: Option<string>)
      requires hasChannel
      modifies this`deliveries
      ensures deliveries == old(deliveries) +
        if messageType == Some(UpdatedMessage) then Deliveries(subscribers, ReadFromStorage()) else []
    {
      if messageType == Some(UpdatedMessage) {
        var items := GetComments();
        NotifyAll(items);
      }
    }
  }
}
