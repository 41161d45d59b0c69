/** The admin controller: slugs made from museum names, the duplicate-slug
    and default-field rules of `createMuseum` and `updateMuseum`, the status
    whitelist of `updateTicketStatus`, and the in-memory `userEmail` and
    `search` filters of `getAllBookings`. The database is a value: the
    museum catalogue and the stored support tickets are sequences passed in,
    and each operation returns the new sequence and the document the handler
    answers with, or the error it answers with. */
module Admin {
  import opened Wrappers
  import opened Strings
  import opened Seqs
  import opened Museums
  import opened Chat

  /** The handler's error answers: 400 for `InvalidStatus` and
      `DuplicateName`, 404 for the two not-found cases, and 500 for
      `ServerError` (an exception, including a rejected document). */
  datatype AdminError = InvalidStatus | TicketNotFound | DuplicateName | MuseumNotFound | ServerError

  /** A request text is truthy in JavaScript when present and non-empty. */
  predicate Truthy(v: Option<string>)
  {
    v.Some? && v.value != ""
  }

  // ------------------------------------------------------------------ slugs

  /** The characters of `[a-z0-9]`. */
  predicate SlugChar(c: char)
  {
    'a' <= c <= 'z' || '0' <= c <= '9'
  }

  /** The letters and digits of `s`, in order. */
  function Alnum(s: string): string
  {
    if s == [] then [] else (if SlugChar(s[0]) then [s[0]] else []) + Alnum(s[1..])
  }

  /** Drops the leading characters outside `[a-z0-9]`. */
  function SkipRun(s: string): (r: string)
    ensures |r| <= |s| && r == s[|s| - |r|..]
    ensures r == [] || SlugChar(r[0])
    ensures forall k :: 0 <= k < |s| - |r| ==> !SlugChar(s[k])
  {
    if s != [] && !SlugChar(s[0]) then
      var r := SkipRun(s[1..]);
      assert s[1..][|s| - 1 - |r|..] == s[|s| - |r|..];
      assert forall k :: 1 <= k < |s| - |r| ==> s[k] == s[1..][k - 1];
      r
    else s
  }

  /** `replace(/[^a-z0-9]+/g, '-')`: each maximal run of characters outside
      `[a-z0-9]` becomes one dash. */
  function Collapse(s: string): (r: string)
    ensures forall k :: 0 <= k < |r| ==> SlugChar(r[k]) || r[k] == '-'
    ensures forall k :: 0 <= k < |r| - 1 && r[k] == '-' ==> r[k + 1] != '-'
    ensures r == [] <==> s == []
    ensures r != [] ==> (r[0] == '-' <==> !SlugChar(s[0]))
    decreases |s|
  {
    if s == [] then []
    else if SlugChar(s[0]) then [s[0]] + Collapse(s[1..])
    else "-" + Collapse(SkipRun(s[1..]))
  }

  /** A letter or digit is kept as it is, in front of the collapse of the rest. */
  lemma CollapseKeepsSlugChar(c: char, t: string)
    requires SlugChar(c)
    ensures Collapse([c] + t) == [c] + Collapse(t)
  {
    assert ([c] + t)[1..] == t;
  }

  /** A maximal run of characters outside `[a-z0-9]` becomes one dash, in
      front of the collapse of what follows it. */
  lemma CollapseRun(run: string, t: string)
    requires run != [] && forall k :: 0 <= k < |run| ==> !SlugChar(run[k])
    requires t == [] || SlugChar(t[0])
    ensures Collapse(run + t) == "-" + Collapse(t)
  {
    assert (run + t)[0] == run[0];
    assert (run + t)[1..] == run[1..] + t;
    SkipRunOfRun(run[1..], t);
  }

  /** Skipping a run of non-slug characters stops at the first slug character. */
  lemma {:induction false} SkipRunOfRun(run: string, t: string)
    requires forall k :: 0 <= k < |run| ==> !SlugChar(run[k])
    requires t == [] || SlugChar(t[0])
    ensures SkipRun(run + t) == t
    decreases |run|
  {
    if run == [] {
      assert run + t == t;
    } else {
      assert (run + t)[0] == run[0];
      assert (run + t)[1..] == run[1..] + t;
      SkipRunOfRun(run[1..], t);
    }
  }

  /** `replace(/(^-|-$)/g, '')`: one leading and one trailing dash go. */
  function TrimDashes(s: string): string
  {
    var a := if s != [] && s[0] == '-' then s[1..] else s;
    if a != [] && a[|a| - 1] == '-' then a[..|a| - 1] else a
  }

  /** The slug `createMuseum` and `updateMuseum` derive from a name. */
  function Slug(name: string): string
  {
    TrimDashes(Collapse(ToLower(name)))
  }

  /** Lower-case letters, digits and single dashes, with no dash at either end. */
  predicate IsSlug(s: string)
  {
    && (forall k :: 0 <= k < |s| ==> SlugChar(s[k]) || s[k] == '-')
    && (forall k :: 0 <= k < |s| - 1 && s[k] == '-' ==> s[k + 1] != '-')
    && (s == [] || (s[0] != '-' && s[|s| - 1] != '-'))
  }

  /** Every slug has the slug shape. */
  lemma SlugIsSlug(name: string)
    ensures IsSlug(Slug(name))
  {
    var c := Collapse(ToLower(name));
    var a := if c != [] && c[0] == '-' then c[1..] else c;
    assert forall k :: 0 <= k < |a| ==> SlugChar(a[k]) || a[k] == '-';
    assert forall k :: 0 <= k < |a| - 1 && a[k] == '-' ==> a[k + 1] != '-';
    assert a == [] || a[0] != '-';
  }

  lemma {:induction false} SkipRunKeepsAlnum(s: string)
    ensures Alnum(SkipRun(s)) == Alnum(s)
    decreases |s|
  {
    if s != [] && !SlugChar(s[0]) {
      SkipRunKeepsAlnum(s[1..]);
    }
  }

  /** Collapsing the runs keeps every letter and digit, in order. */
  lemma {:induction false} CollapseKeepsAlnum(s: string)
    ensures Alnum(Collapse(s)) == Alnum(s)
    decreases |s|
  {
    if s != [] {
      if SlugChar(s[0]) {
        CollapseKeepsAlnum(s[1..]);
        assert ([s[0]] + Collapse(s[1..]))[1..] == Collapse(s[1..]);
      } else {
        var t := SkipRun(s[1..]);
        CollapseKeepsAlnum(t);
        SkipRunKeepsAlnum(s[1..]);
        assert ("-" + Collapse(t))[1..] == Collapse(t);
      }
    }
  }

  lemma {:induction false} AlnumAppend(a: string, b: string)
    ensures Alnum(a + b) == Alnum(a) + Alnum(b)
    decreases |a|
  {
    if a != [] {
      assert (a + b)[1..] == a[1..] + b;
      AlnumAppend(a[1..], b);
    } else {
      assert a + b == b;
    }
  }

  /** Dropping dashes at the ends keeps every letter and digit. */
  lemma TrimDashesKeepsAlnum(c: string)
    ensures Alnum(TrimDashes(c)) == Alnum(c)
  {
    var a := if c != [] && c[0] == '-' then c[1..] else c;
    assert Alnum(a) == Alnum(c) by {
      if c != [] && c[0] == '-' {
        assert c == "-" + a;
        AlnumAppend("-", a);
      }
    }
    if a != [] && a[|a| - 1] == '-' {
      var p := a[..|a| - 1];
      assert a == p + "-";
      AlnumAppend(p, "-");
      assert Alnum("-") == [];
      assert TrimDashes(c) == p;
    } else {
      assert TrimDashes(c) == a;
    }
  }

  /** A slug holds exactly the letters and digits of the lower-cased name, in
      their order: only the separators change. */
  lemma SlugKeepsLettersAndDigits(name: string)
    ensures Alnum(Slug(name)) == Alnum(ToLower(name))
  {
    CollapseKeepsAlnum(ToLower(name));
    TrimDashesKeepsAlnum(Collapse(ToLower(name)));
  }

  /** A string of letters, digits and single dashes is its own collapse. */
  lemma {:induction false} CollapseFixed(s: string)
    requires forall k :: 0 <= k < |s| ==> SlugChar(s[k]) || s[k] == '-'
    requires forall k :: 0 <= k < |s| - 1 && s[k] == '-' ==> s[k + 1] != '-'
    ensures Collapse(s) == s
    decreases |s|
  {
    if s != [] {
      CollapseFixed(s[1..]);
      if !SlugChar(s[0]) {
        assert SkipRun(s[1..]) == s[1..];
      }
      assert s == [s[0]] + s[1..];
    }
  }

  /** A slug is its own slug. */
  lemma SlugOfSlug(s: string)
    requires IsSlug(s)
    ensures Slug(s) == s
  {
    assert forall k :: 0 <= k < |s| ==> LowerChar(s[k]) == s[k];
    assert ToLower(s) == s;
    CollapseFixed(s);
    assert TrimDashes(s) == s;
  }

  /** Deriving a slug twice is deriving it once. */
  lemma SlugIdempotent(name: string)
    ensures Slug(Slug(name)) == Slug(name)
  {
    SlugIsSlug(name);
    SlugOfSlug(Slug(name));
  }

  // ------------------------------------------------------- ticket status

  const ValidStatuses: seq<string> := ["Open", "In Progress", "Resolved"]

  /** A support ticket as stored, with its database id. */
  datatype StoredTicket = StoredTicket(docId: string, ticket: SupportTicket)

  function TicketHasId(id: string): StoredTicket -> bool
  {
    (t: StoredTicket) => t.docId == id
  }

  /** `updateTicketStatus`: the status is checked against the whitelist
      before any lookup; then the ticket with the id gets the new status. */
  function UpdateTicketStatus(tickets: seq<StoredTicket>, id: string, status: Option<string>)
    : (r: Result<(seq<StoredTicket>, StoredTicket), AdminError>)
    ensures (status.None? || status.value !in ValidStatuses) ==> r == Err(InvalidStatus)
    ensures status.Some? && status.value in ValidStatuses ==>
              (r.Err? <==> forall t :: t in tickets ==> t.docId != id) && (r.Err? ==> r.error == TicketNotFound)
    ensures r.Ok? ==>
              && status.Some? && status.value in ValidStatuses
              && exists i :: 0 <= i < |tickets| && tickets[i].docId == id
                              && r.value.1 == tickets[i].(ticket := tickets[i].ticket.(status := status.value))
                              && r.value.0 == tickets[i := r.value.1]
                              && forall j :: 0 <= j < i ==> tickets[j].docId != id
  {
    if status.None? || status.value !in ValidStatuses then Err(InvalidStatus)
    else
      var i := FirstWhere(tickets, TicketHasId(id));
      if i.None? then Err(TicketNotFound)
      else
        var t := tickets[i.value];
        var updated := t.(ticket := t.ticket.(status := status.value));
        Ok((tickets[i.value := updated], updated))
  }

  // ------------------------------------------------------------- museums

  /** The museum fields of a request body; `None` is an absent field. */
  datatype MuseumFields = MuseumFields(
    name: Option<string>, description: Option<string>, location: Option<string>,
    price: Option<nat>, imageUrl: Option<string>, isActive: Option<bool>)

  /** `v || d` for a text field. */
  function OrDefault(v: Option<string>, d: string): (r: string)
    ensures Truthy(v) ==> r == v.value
    ensures !Truthy(v) ==> r == d
  {
    if Truthy(v) then v.value else d
  }

  /** Some museum other than the one with id `except` already has this slug
      (`findOne({ slug, _id: { $ne: except } })`; `None` excludes nothing). */
  predicate SlugTaken(catalog: seq<Museum>, slug: string, except: Option<string>)
  {
    exists m :: m in catalog && m.slug == slug && Some(m.id) != except
  }

  predicate SlugsUnique(catalog: seq<Museum>)
  {
    forall i, j :: 0 <= i < j < |catalog| ==> catalog[i].slug != catalog[j].slug
  }

  predicate IdsUnique(catalog: seq<Museum>)
  {
    forall i, j :: 0 <= i < j < |catalog| ==> catalog[i].id != catalog[j].id
  }

  /** `createMuseum`. A missing name makes the slug computation throw; a
      taken slug is refused; the document is then rejected by the schema
      when its name, slug or price is missing or empty; otherwise it is
      stored with the defaults for the absent fields. `newId` is the id the
      database assigns. */
  function CreateMuseum(catalog: seq<Museum>, body: MuseumFields, newId: string)
    : (r: Result<(seq<Museum>, Museum), AdminError>)
    ensures body.name.None? ==> r == Err(ServerError)
    ensures body.name.Some? && SlugTaken(catalog, Slug(body.name.value), None) ==> r == Err(DuplicateName)
    ensures r.Ok? <==>
              && body.name.Some? && body.name.value != "" && body.price.Some?
              && Slug(body.name.value) != "" && !SlugTaken(catalog, Slug(body.name.value), None)
    ensures r.Ok? ==>
              && r.value.0 == catalog + [r.value.1]
              && r.value.1 == Museum(newId, body.name.value, Slug(body.name.value),
                                     OrDefault(body.description, ""), OrDefault(body.location, "Bengaluru"),
                                     body.price.value, OrDefault(body.imageUrl, ""),
                                     if body.isActive.Some? then body.isActive.value else true)
    ensures r.Ok? && SlugsUnique(catalog) ==> SlugsUnique(r.value.0)
  {
    if body.name.None? then Err(ServerError)
    else
      var slug := Slug(body.name.value);
      if SlugTaken(catalog, slug, None) then Err(DuplicateName)
      else if body.name.value == "" || slug == "" || body.price.None? then Err(ServerError)
      else
        var museum := Museum(newId, body.name.value, slug,
                             OrDefault(body.description, ""), OrDefault(body.location, "Bengaluru"),
                             body.price.value, OrDefault(body.imageUrl, ""),
                             if body.isActive.Some? then body.isActive.value else true);
        assert forall i :: 0 <= i < |catalog| ==> catalog[i] in catalog;
        Ok((catalog + [museum], museum))
  }

  /** The `updateData` document of `updateMuseum`: the fields to set. */
  datatype MuseumUpdate = MuseumUpdate(
    name: Option<string>, slug: Option<string>, description: Option<string>, location: Option<string>,
    price: Option<nat>, imageUrl: Option<string>, isActive: Option<bool>)

  /** Sets the fields an update holds and keeps the others. */
  function ApplyUpdate(m: Museum, u: MuseumUpdate): Museum
  {
    m.(name := if u.name.Some? then u.name.value else m.name,
       slug := if u.slug.Some? then u.slug.value else m.slug,
       description := if u.description.Some? then u.description.value else m.description,
       location := if u.location.Some? then u.location.value else m.location,
       price := if u.price.Some? then u.price.value else m.price,
       imageUrl := if u.imageUrl.Some? then u.imageUrl.value else m.imageUrl,
       isActive := if u.isActive.Some? then u.isActive.value else m.isActive)
  }

  /** `updateData` built field by field: each defined field is copied, and a
      truthy name brings its slug with it unless another museum has it. */
  method BuildUpdate(catalog: seq<Museum>, id: string, body: MuseumFields) returns (r: Result<MuseumUpdate, AdminError>)
    ensures r.Err? <==> Truthy(body.name) && SlugTaken(catalog, Slug(body.name.value), Some(id))
    ensures r.Err? ==> r.error == DuplicateName
    ensures r.Ok? ==>
              && r.value.description == body.description && r.value.location == body.location
              && r.value.price == body.price && r.value.imageUrl == body.imageUrl
              && r.value.isActive == body.isActive
              && (if Truthy(body.name) then r.value.name == body.name && r.value.slug == Some(Slug(body.name.value))
                  else r.value.name.None? && r.value.slug.None?)
  {
    var updateData := MuseumUpdate(None, None, None, None, None, None, None);
    if body.description.Some? {
      updateData := updateData.(description := body.description);
    }
    if body.location.Some? {
      updateData := updateData.(location := body.location);
    }
    if body.price.Some? {
      updateData := updateData.(price := body.price);
    }
    if body.imageUrl.Some? {
      updateData := updateData.(imageUrl := body.imageUrl);
    }
    if body.isActive.Some? {
      updateData := updateData.(isActive := body.isActive);
    }
    if Truthy(body.name) {
      var slug := Slug(body.name.value);
      if SlugTaken(catalog, slug, Some(id)) {
        return Err(DuplicateName);
      }
      updateData := updateData.(name := body.name);
      updateData := updateData.(slug := Some(slug));
    }
    return Ok(updateData);
  }

  function MuseumHasId(id: string): Museum -> bool
  {
    (m: Museum) => m.id == id
  }

  /** Setting a slug no other museum has keeps the slugs unique. */
  lemma UpdateKeepsSlugsUnique(catalog: seq<Museum>, i: nat, m: Museum)
    requires i < |catalog| && SlugsUnique(catalog) && IdsUnique(catalog) && m.id == catalog[i].id
    requires m.slug == catalog[i].slug || !SlugTaken(catalog, m.slug, Some(m.id))
    ensures SlugsUnique(catalog[i := m])
  {
    var c := catalog[i := m];
    forall j, k | 0 <= j < k < |c|
      ensures c[j].slug != c[k].slug
    {
      if j == i {
        assert catalog[k] in catalog;
      } else if k == i {
        assert catalog[j] in catalog;
      }
    }
  }

  /** `updateMuseum`: the duplicate check comes before the lookup, so a taken
      slug is refused even when no museum has the id; the first museum with
      the id then gets the fields of `updateData`. */
  method UpdateMuseum(catalog: seq<Museum>, id: string, body: MuseumFields)
    returns (r: Result<(seq<Museum>, Museum), AdminError>)
    ensures r == Err(DuplicateName) <==> Truthy(body.name) && SlugTaken(catalog, Slug(body.name.value), Some(id))
    ensures r == Err(MuseumNotFound) <==>
              !(Truthy(body.name) && SlugTaken(catalog, Slug(body.name.value), Some(id)))
              && forall m :: m in catalog ==> m.id != id
    ensures r.Err? ==> r.error == DuplicateName || r.error == MuseumNotFound
    ensures r.Ok? ==>
              exists i :: 0 <= i < |catalog| && catalog[i].id == id && r.value.0 == catalog[i := r.value.1]
                          && (forall j :: 0 <= j < i ==> catalog[j].id != id)
                          && UpdatedFrom(catalog[i], r.value.1, body)
    ensures r.Ok? && SlugsUnique(catalog) && IdsUnique(catalog) ==> SlugsUnique(r.value.0)
  {
    var updateData := BuildUpdate(catalog, id, body);
    if updateData.Err? {
      return Err(updateData.error);
    }
    var i := FirstWhere(catalog, MuseumHasId(id));
    if i.None? {
      assert forall m :: m in catalog ==> m.id != id by {
        forall m | m in catalog ensures m.id != id {
          var k :| 0 <= k < |catalog| && catalog[k] == m;
          assert !MuseumHasId(id)(catalog[k]);
        }
      }
      return Err(MuseumNotFound);
    }
    var museum := ApplyUpdate(catalog[i.value], updateData.value);
    assert MuseumHasId(id)(catalog[i.value]);
    assert UpdatedFrom(catalog[i.value], museum, body);
    assert forall j :: 0 <= j < i.value ==> catalog[j].id != id by {
      forall j | 0 <= j < i.value ensures catalog[j].id != id {
        assert !MuseumHasId(id)(catalog[j]);
      }
    }
    if SlugsUnique(catalog) && IdsUnique(catalog) {
      UpdateKeepsSlugsUnique(catalog, i.value, museum);
    }
    return Ok((catalog[i.value := museum], museum));
  }

  /** What `updateMuseum` promises about the museum it answers with: the id
      stays, each field the body defines is taken from it, a truthy name sets
      the name and its slug together, and every other field is kept. */
  predicate UpdatedFrom(before: Museum, m: Museum, body: MuseumFields)
  {
    && m.id == before.id
    && m.description == (if body.description.Some? then body.description.value else before.description)
    && m.location == (if body.location.Some? then body.location.value else before.location)
    && m.price == (if body.price.Some? then body.price.value else before.price)
    && m.imageUrl == (if body.imageUrl.Some? then body.imageUrl.value else before.imageUrl)
    && m.isActive == (if body.isActive.Some? then body.isActive.value else before.isActive)
    && (if Truthy(body.name) then m.name == body.name.value && m.slug == Slug(body.name.value)
        else m.name == before.name && m.slug == before.slug)
  }

  // -------------------------------------------------------------- bookings

  /** The user and museum of a booking as `populate` fills them in; a
      deleted user or museum populates as `null`. */
  datatype UserInfo = UserInfo(name: Option<string>, email: Option<string>)
  datatype MuseumInfo = MuseumInfo(id: string, name: Option<string>)

  /** A booking as the admin listing returns it. */
  datatype AdminBooking = AdminBooking(
    bookingId: string, user: Option<UserInfo>, museum: Option<MuseumInfo>,
    ticketCount: nat, amount: nat, paymentStatus: PaymentStatus)

  /** `booking.user?.email?.toLowerCase().includes(userEmail.toLowerCase())` */
  predicate MatchesEmail(b: AdminBooking, userEmail: string)
  {
    b.user.Some? && b.user.value.email.Some? && Contains(ToLower(b.user.value.email.value), ToLower(userEmail))
  }

  /** The lower-cased search text occurs in the booking id, the user's name
      or email, or the museum's name, each lower-cased. */
  predicate MatchesSearch(b: AdminBooking, search: string)
  {
    var q := ToLower(search);
    || Contains(ToLower(b.bookingId), q)
    || (b.user.Some? && b.user.value.name.Some? && Contains(ToLower(b.user.value.name.value), q))
    || (b.user.Some? && b.user.value.email.Some? && Contains(ToLower(b.user.value.email.value), q))
    || (b.museum.Some? && b.museum.value.name.Some? && Contains(ToLower(b.museum.value.name.value), q))
  }

  function EmailFilter(userEmail: string): AdminBooking -> bool
  {
    (b: AdminBooking) => MatchesEmail(b, userEmail)
  }

  function SearchFilter(search: string): AdminBooking -> bool
  {
    (b: AdminBooking) => MatchesSearch(b, search)
  }

  /** The bookings both filters let through; a filter whose query text is
      absent or empty lets everything through. */
  predicate Kept(b: AdminBooking, userEmail: Option<string>, search: Option<string>)
  {
    && (Truthy(userEmail) ==> MatchesEmail(b, userEmail.value))
    && (Truthy(search) ==> MatchesSearch(b, search.value))
  }

  function KeptFilter(userEmail: Option<string>, search: Option<string>): AdminBooking -> bool
  {
    (b: AdminBooking) => Kept(b, userEmail, search)
  }

  /** The in-memory part of `getAllBookings`: `found` is what the database
      query returned, newest first; the `userEmail` filter and then the
      `search` filter are applied to it in turn. The result is the one-pass
      filter by both conditions, so the filters only remove bookings and
      never reorder them. */
  method FilterBookings(found: seq<AdminBooking>, userEmail: Option<string>, search: Option<string>)
    returns (bookings: seq<AdminBooking>)
    ensures bookings == Filter(found, KeptFilter(userEmail, search))
    ensures forall b :: b in bookings <==> b in found && Kept(b, userEmail, search)
    ensures IsSubsequence(bookings, found)
  {
    bookings := found;
    if Truthy(userEmail) {
      bookings := Filter(bookings, EmailFilter(userEmail.value));
    }
    if Truthy(search) {
      bookings := Filter(bookings, SearchFilter(search.value));
    }
    var keep := KeptFilter(userEmail, search);
    if Truthy(userEmail) && Truthy(search) {
      FilterFilter(found, EmailFilter(userEmail.value), SearchFilter(search.value), keep);
    } else if Truthy(userEmail) {
      FilterExt(found, EmailFilter(userEmail.value), keep);
    } else if Truthy(search) {
      FilterExt(found, SearchFilter(search.value), keep);
    } else {
      FilterAll(found, keep);
    }
  }

  /** Searching ignores the case of the search text. */
  lemma SearchIgnoresCase(b: AdminBooking, search: string)
    ensures MatchesSearch(b, search) <==> MatchesSearch(b, ToLower(search))
  {
    ToLowerIdempotent(search);
  }

  /** Every booking the `userEmail` filter keeps for a text is also found by
      a general search for that text. */
  lemma EmailMatchIsSearchMatch(b: AdminBooking, text: string)
    requires MatchesEmail(b, text)
    ensures MatchesSearch(b, text)
  {
  }
}
