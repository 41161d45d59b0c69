/** `groupBookingsByMuseum` of the admin panel: one pass over the bookings
    that drops those outside the selected museum and collects the others by
    museum id, with the museum's name and running totals of tickets and
    revenue per group. */
module Grouping {
  import opened Wrappers
  import opened Seqs
  import opened Admin

  /** One entry of the `grouped` object. */
  datatype Group = Group(museumName: string, bookings: seq<AdminBooking>, totalTickets: nat, totalRevenue: nat)

  /** `booking.museum?._id?.toString() || 'unknown'` */
  function GroupKey(b: AdminBooking): (r: string)
    ensures r != ""
    ensures b.museum.Some? && b.museum.value.id != "" ==> r == b.museum.value.id
  {
    if b.museum.Some? && b.museum.value.id != "" then b.museum.value.id else "unknown"
  }

  /** `booking.museum?.name || 'Unknown Museum'` */
  function GroupName(b: AdminBooking): (r: string)
    ensures r != ""
  {
    if b.museum.Some? && Truthy(b.museum.value.name) then b.museum.value.name.value else "Unknown Museum"
  }

  /** The selection test: everything under 'all', otherwise one museum id. */
  predicate Included(b: AdminBooking, selected: string)
  {
    selected == "all" || GroupKey(b) == selected
  }

  function InGroup(key: string, selected: string): AdminBooking -> bool
  {
    (b: AdminBooking) => Included(b, selected) && GroupKey(b) == key
  }

  /** The bookings that belong to the group `key`, in input order. */
  function Members(bookings: seq<AdminBooking>, key: string, selected: string): seq<AdminBooking>
  {
    Filter(bookings, InGroup(key, selected))
  }

  function SumTickets(bs: seq<AdminBooking>): nat
  {
    if bs == [] then 0 else SumTickets(bs[..|bs| - 1]) + bs[|bs| - 1].ticketCount
  }

  function SumAmount(bs: seq<AdminBooking>): nat
  {
    if bs == [] then 0 else SumAmount(bs[..|bs| - 1]) + bs[|bs| - 1].amount
  }

  /** A group as the pass leaves it for the bookings `ms`: named after the
      first of them, holding them all, with their totals. */
  predicate Describes(g: Group, ms: seq<AdminBooking>)
  {
    && ms != []
    && g.museumName == GroupName(ms[0])
    && g.bookings == ms
    && g.totalTickets == SumTickets(ms)
    && g.totalRevenue == SumAmount(ms)
  }

  lemma MembersAppend(bookings: seq<AdminBooking>, b: AdminBooking, key: string, selected: string)
    ensures Members(bookings + [b], key, selected)
            == Members(bookings, key, selected) + (if Included(b, selected) && GroupKey(b) == key then [b] else [])
  {
    FilterAppend(bookings, b, InGroup(key, selected));
  }

  /** Adding a booking to a group adds its tickets and amount to the totals. */
  lemma SumsAppend(bs: seq<AdminBooking>, b: AdminBooking)
    ensures SumTickets(bs + [b]) == SumTickets(bs) + b.ticketCount
    ensures SumAmount(bs + [b]) == SumAmount(bs) + b.amount
  {
    assert (bs + [b])[..|bs|] == bs;
  }

  /** What the pass has built after the bookings `bs`. */
  ghost predicate GroupsOf(grouped: map<string, Group>, bs: seq<AdminBooking>, selected: string)
  {
    && (forall key :: key in grouped <==> Members(bs, key, selected) != [])
    && (forall key :: key in grouped ==> Describes(grouped[key], Members(bs, key, selected)))
  }

  /** One iteration of the `forEach`, as a value. */
  function AddBooking(grouped: map<string, Group>, b: AdminBooking, selected: string): map<string, Group>
  {
    if !Included(b, selected) then grouped
    else
      var key := GroupKey(b);
      var g := if key in grouped then grouped[key] else Group(GroupName(b), [], 0, 0);
      grouped[key := g.(bookings := g.bookings + [b],
                        totalTickets := g.totalTickets + b.ticketCount,
                        totalRevenue := g.totalRevenue + b.amount)]
  }

  /** One iteration, seen from one group. */
  lemma AddBookingAt(grouped: map<string, Group>, bs: seq<AdminBooking>, b: AdminBooking, selected: string, key: string)
    requires key in grouped <==> Members(bs, key, selected) != []
    requires key in grouped ==> Describes(grouped[key], Members(bs, key, selected))
    ensures var next := AddBooking(grouped, b, selected);
            && (key in next <==> Members(bs + [b], key, selected) != [])
            && (key in next ==> Describes(next[key], Members(bs + [b], key, selected)))
  {
    MembersAppend(bs, b, key, selected);
    var ms := Members(bs, key, selected);
    if Included(b, selected) && key == GroupKey(b) {
      SumsAppend(ms, b);
      if ms != [] {
        assert (ms + [b])[0] == ms[0];
      }
    }
  }

  /** One iteration extends what the pass has built by one booking. */
  lemma AddBookingExtends(grouped: map<string, Group>, bs: seq<AdminBooking>, b: AdminBooking, selected: string)
    requires GroupsOf(grouped, bs, selected)
    ensures GroupsOf(AddBooking(grouped, b, selected), bs + [b], selected)
  {
    forall key
      ensures var next := AddBooking(grouped, b, selected);
              && (key in next <==> Members(bs + [b], key, selected) != [])
              && (key in next ==> Describes(next[key], Members(bs + [b], key, selected)))
    {
      AddBookingAt(grouped, bs, b, selected, key);
    }
  }

  /** The keys of `grouped` in the order the pass creates them, which is the
      order `Object.entries` lists them in: a key is added when the first
      included booking that has it is seen. */
  function KeyOrder(bs: seq<AdminBooking>, selected: string): seq<string>
    decreases |bs|
  {
    if bs == [] then []
    else
      var prev := KeyOrder(bs[..|bs| - 1], selected);
      var b := bs[|bs| - 1];
      if Included(b, selected) && GroupKey(b) !in prev then prev + [GroupKey(b)] else prev
  }

  /** The index of the first included booking with museum id `key`. */
  function FirstSeen(bs: seq<AdminBooking>, key: string, selected: string): Option<nat>
  {
    FirstWhere(bs, InGroup(key, selected))
  }

  /** The key order holds exactly the keys of the groups. */
  lemma {:induction false} KeyOrderMembers(bs: seq<AdminBooking>, selected: string)
    ensures forall key :: key in KeyOrder(bs, selected) <==> Members(bs, key, selected) != []
    decreases |bs|
  {
    if bs != [] {
      var ps := bs[..|bs| - 1];
      var b := bs[|bs| - 1];
      assert bs == ps + [b];
      KeyOrderMembers(ps, selected);
      forall key
        ensures key in KeyOrder(bs, selected) <==> Members(bs, key, selected) != []
      {
        MembersAppend(ps, b, key, selected);
      }
    }
  }

  /** No key is listed twice. */
  predicate Distinct(keys: seq<string>)
  {
    forall i, j :: 0 <= i < j < |keys| ==> keys[i] != keys[j]
  }

  /** The key order lists each key once. */
  lemma {:induction false} KeyOrderDistinct(bs: seq<AdminBooking>, selected: string)
    ensures Distinct(KeyOrder(bs, selected))
    decreases |bs|
  {
    if bs != [] {
      var b := bs[|bs| - 1];
      var prev := KeyOrder(bs[..|bs| - 1], selected);
      KeyOrderDistinct(bs[..|bs| - 1], selected);
      var r := KeyOrder(bs, selected);
      assert r == if Included(b, selected) && GroupKey(b) !in prev then prev + [GroupKey(b)] else prev;
      forall i, j | 0 <= i < j < |r|
        ensures r[i] != r[j]
      {
        assert r[i] == prev[i] && r[i] in prev;
        if j < |prev| {
          assert r[j] == prev[j] && prev[i] != prev[j];
        } else {
          assert r == prev + [GroupKey(b)] && GroupKey(b) !in prev;
          assert r[j] == GroupKey(b);
        }
      }
    }
  }

  /** Each key of `keys` has an included booking, and the keys are listed in
      the order of their first included bookings. */
  predicate InFirstSeenOrder(bs: seq<AdminBooking>, keys: seq<string>, selected: string)
  {
    forall i, j :: 0 <= i < j < |keys| ==> SeenBefore(bs, keys[i], keys[j], selected)
  }

  /** Both keys have an included booking, and `k1`'s comes first. */
  predicate SeenBefore(bs: seq<AdminBooking>, k1: string, k2: string, selected: string)
  {
    && FirstSeen(bs, k1, selected).Some? && FirstSeen(bs, k2, selected).Some?
    && FirstSeen(bs, k1, selected).value < FirstSeen(bs, k2, selected).value
  }

  /** A group's key comes before another's exactly when its first booking
      comes before the other's. */
  lemma {:induction false} KeyOrderIsFirstSeen(bs: seq<AdminBooking>, selected: string)
    ensures InFirstSeenOrder(bs, KeyOrder(bs, selected), selected)
    decreases |bs|
  {
    if bs != [] {
      var ps := bs[..|bs| - 1];
      var b := bs[|bs| - 1];
      assert bs == ps + [b];
      KeyOrderIsFirstSeen(ps, selected);
      KeyOrderMembers(ps, selected);
      FirstSeenOrderStep(ps, b, KeyOrder(ps, selected), selected);
    }
  }

  /** One more booking keeps the order of first appearance when its key
      is appended exactly if no earlier booking had it. */
  lemma FirstSeenOrderStep(ps: seq<AdminBooking>, b: AdminBooking, prev: seq<string>, selected: string)
    requires InFirstSeenOrder(ps, prev, selected)
    requires forall key :: key in prev <==> Members(ps, key, selected) != []
    ensures InFirstSeenOrder(ps + [b], if Included(b, selected) && GroupKey(b) !in prev then prev + [GroupKey(b)] else prev,
                             selected)
  {
    var bs := ps + [b];
    if Included(b, selected) && GroupKey(b) !in prev {
      var r := prev + [GroupKey(b)];
      forall i, j | 0 <= i < j < |r|
        ensures SeenBefore(bs, r[i], r[j], selected)
      {
        FirstSeenAppend(ps, b, r[i], selected);
        FirstSeenAppend(ps, b, r[j], selected);
        assert r[i] == prev[i] && r[i] in prev;
        if j < |prev| {
          assert r[j] == prev[j] && r[j] in prev;
          assert SeenBefore(ps, prev[i], prev[j], selected);
        } else {
          assert r[j] == GroupKey(b);
          assert FirstSeen(ps, r[i], selected).value < |ps|;
        }
      }
      assert InFirstSeenOrder(bs, r, selected);
    } else {
      forall i, j | 0 <= i < j < |prev|
        ensures SeenBefore(bs, prev[i], prev[j], selected)
      {
        FirstSeenAppend(ps, b, prev[i], selected);
        FirstSeenAppend(ps, b, prev[j], selected);
        assert prev[i] in prev && prev[j] in prev;
        assert SeenBefore(ps, prev[i], prev[j], selected);
      }
      assert InFirstSeenOrder(bs, prev, selected);
    }
  }

  /** One more booking sets a group's first index only if it had none. */
  lemma FirstSeenAppend(bs: seq<AdminBooking>, b: AdminBooking, key: string, selected: string)
    ensures FirstSeen(bs, key, selected).Some? <==> Members(bs, key, selected) != []
    ensures FirstSeen(bs + [b], key, selected)
            == if FirstSeen(bs, key, selected).Some? then FirstSeen(bs, key, selected)
               else if Included(b, selected) && GroupKey(b) == key then Some(|bs|) else None
  {
    FirstWhereAppend(bs, b, InGroup(key, selected));
    FilterNonEmptyIffFound(bs, InGroup(key, selected));
  }

  /** One more booking appends its key to the order exactly when the pass
      has no group for it yet. */
  lemma KeyOrderStep(grouped: map<string, Group>, bs: seq<AdminBooking>, b: AdminBooking, selected: string)
    requires GroupsOf(grouped, bs, selected)
    ensures KeyOrder(bs + [b], selected)
            == if Included(b, selected) && GroupKey(b) !in grouped then KeyOrder(bs, selected) + [GroupKey(b)]
               else KeyOrder(bs, selected)
  {
    KeyOrderMembers(bs, selected);
    assert (bs + [b])[..|bs|] == bs;
  }

  /** What the pass has built after the bookings `bs`, key order included. */
  ghost predicate PassedOver(grouped: map<string, Group>, keys: seq<string>, bs: seq<AdminBooking>, selected: string)
  {
    GroupsOf(grouped, bs, selected) && keys == KeyOrder(bs, selected)
  }

  /** One iteration extends the groups and the key order by one booking. */
  lemma PassStep(grouped: map<string, Group>, keys: seq<string>, bs: seq<AdminBooking>, b: AdminBooking, selected: string)
    requires PassedOver(grouped, keys, bs, selected)
    ensures PassedOver(AddBooking(grouped, b, selected),
                       if Included(b, selected) && GroupKey(b) !in grouped then keys + [GroupKey(b)] else keys,
                       bs + [b], selected)
  {
    AddBookingExtends(grouped, bs, b, selected);
    KeyOrderStep(grouped, bs, b, selected);
  }

  /** The `forEach` callback: an excluded booking is skipped; otherwise its
      group is created on first sight, named after it (which appends its key
      to the object's key order), and then receives the booking and its
      tickets and amount. */
  method AddToGroups(grouped: map<string, Group>, keys: seq<string>, booking: AdminBooking, selected: string)
    returns (next: map<string, Group>, nextKeys: seq<string>)
    ensures next == AddBooking(grouped, booking, selected)
    ensures nextKeys == if Included(booking, selected) && GroupKey(booking) !in grouped then keys + [GroupKey(booking)] else keys
  {
    next := grouped;
    nextKeys := keys;
    var museumId := GroupKey(booking);
    var museumName := GroupName(booking);
    if !Included(booking, selected) {
      return;
    }
    if museumId !in next {
      next := next[museumId := Group(museumName, [], 0, 0)];
      nextKeys := nextKeys + [museumId];
    }
    var g := next[museumId];
    next := next[museumId := g.(bookings := g.bookings + [booking],
                                totalTickets := g.totalTickets + booking.ticketCount,
                                totalRevenue := g.totalRevenue + booking.amount)];
  }

  /** The pass over `bookings`: a group exists exactly for each museum id
      that some included booking has, and describes the included bookings
      with that id; `keys` is the order of the object's keys, which
      `KeyOrderIsFirstSeen` shows to be the order of first appearance. */
  method GroupBookingsByMuseum(bookings: seq<AdminBooking>, selected: string)
    returns (grouped: map<string, Group>, keys: seq<string>)
    ensures forall key :: key in grouped <==> Members(bookings, key, selected) != []
    ensures forall key :: key in grouped ==> Describes(grouped[key], Members(bookings, key, selected))
    ensures keys == KeyOrder(bookings, selected)
  {
    grouped := map[];
    keys := [];
    var i := 0;
    while i < |bookings|
      invariant 0 <= i <= |bookings|
      invariant PassedOver(grouped, keys, bookings[..i], selected)
    {
      var prefix, b := bookings[..i], bookings[i];
      PassStep(grouped, keys, prefix, b, selected);
      grouped, keys := AddToGroups(grouped, keys, b, selected);
      PrefixExtend(bookings, i);
      i := i + 1;
    }
    assert bookings[..i] == bookings;
    assert GroupsOf(grouped, bookings, selected);
  }

  /** Every included booking is in the group of its museum id and in no
      other group; an excluded booking is in none. */
  lemma EachBookingInOneGroup(bookings: seq<AdminBooking>, selected: string, b: AdminBooking, key: string)
    requires b in bookings
    ensures b in Members(bookings, key, selected) <==> Included(b, selected) && key == GroupKey(b)
  {
  }

  /** With a museum selected, only that museum's group can exist. */
  lemma SelectionKeepsOneGroup(bookings: seq<AdminBooking>, selected: string, key: string)
    requires selected != "all" && Members(bookings, key, selected) != []
    ensures key == selected
  {
    var b := Members(bookings, key, selected)[0];
    assert b in Members(bookings, key, selected);
  }

  /** Within a group the bookings keep their input order. */
  lemma GroupKeepsOrder(bookings: seq<AdminBooking>, key: string, selected: string)
    ensures IsSubsequence(Members(bookings, key, selected), bookings)
  {
  }
}
