/** The museum catalogue as the chat controller sees it, and `getMuseumByName`:
    a three-tier matcher (exact, then partial, then word by word) over the
    active museums, each tier tried on every museum before the next. */
module Museums {
  import opened Wrappers
  import opened Strings
  import opened Seqs
  import opened Intents

  datatype Museum = Museum(
    id: string, name: string, slug: string, description: string,
    location: string, price: nat, imageUrl: string, isActive: bool)

  /** `Museum.find({ isActive: true })`, in catalogue order. */
  function Active(catalog: seq<Museum>): (r: seq<Museum>)
    ensures forall m :: m in r <==> m in catalog && m.isActive
    ensures IsSubsequence(r, catalog)
  {
    Filter(catalog, (m: Museum) => m.isActive)
  }

  /** `Museum.find({ isActive: true }).limit(10)`: the museums offered in a menu. */
  function Listed(catalog: seq<Museum>): (r: seq<Museum>)
    ensures |r| <= 10 && r <= Active(catalog)
    ensures |Active(catalog)| >= 10 ==> |r| == 10
    ensures forall m :: m in r ==> m in catalog && m.isActive
  {
    Take(Active(catalog), 10)
  }

  /** `Museum.findById(id)`: any museum of the catalogue, active or not. */
  function FindById(catalog: seq<Museum>, id: Option<string>): (r: Option<Museum>)
    ensures r.Some? ==> r.value in catalog && id == Some(r.value.id)
    ensures r.None? <==> id.None? || forall m :: m in catalog ==> m.id != id.value
  {
    if id.None? then None
    else
      var i := FirstWhere(catalog, (m: Museum) => m.id == id.value);
      if i.None? then None else Some(catalog[i.value])
  }

  /** Tier 1: the message is the museum's name or slug. */
  predicate ExactMatch(n: string, m: Museum)
  {
    n == Normalize(m.name) || n == Normalize(m.slug)
  }

  /** Tier 2: one of message and name (or slug) contains the other, and both
      name and message have at least three characters. */
  predicate PartialMatch(n: string, m: Museum)
  {
    var name := Normalize(m.name);
    var slug := Normalize(m.slug);
    && (Contains(n, name) || Contains(name, n) || Contains(n, slug) || Contains(slug, n))
    && |name| >= 3 && |n| >= 3
  }

  /** `s.split(/\s+/).filter(w => w.length > 2)`: the words longer than two
      characters, in order, a repeated one as often as it is repeated. */
  function LongWords(s: string): (r: seq<string>)
    ensures forall w :: w in r <==> w in Words(s) && |w| > 2
    ensures forall w :: multiset(r)[w] == if |w| > 2 then multiset(Words(s))[w] else 0
    ensures IsSubsequence(r, Words(s))
  {
    FilterCount(Words(s), (w: string) => |w| > 2);
    Filter(Words(s), (w: string) => |w| > 2)
  }

  /** The long words of the message that are also long words of the museum's
      name, in the message's order and counted as often as the message
      repeats them (`matchingWords.length` counts every repetition). */
  function CommonWords(n: string, m: Museum): (r: seq<string>)
    ensures forall w :: w in r <==> w in LongWords(n) && w in LongWords(Normalize(m.name))
    ensures forall w :: multiset(r)[w] == if w in LongWords(Normalize(m.name)) then multiset(LongWords(n))[w] else 0
    ensures IsSubsequence(r, LongWords(n))
    ensures |r| <= |LongWords(n)|
  {
    var museumWords := LongWords(Normalize(m.name));
    FilterCount(LongWords(n), (w: string) => w in museumWords);
    Filter(LongWords(n), (w: string) => w in museumWords)
  }

  /** Tier 3: two common words, or at least half of the message's long words
      (the source compares the ratio with 0.5; here both sides are doubled). */
  predicate WordMatch(n: string, m: Museum)
  {
    var common := |CommonWords(n, m)|;
    var total := |LongWords(n)|;
    common >= 2 || (total > 0 && 2 * common >= total)
  }

  /** The best tier at which `m` matches the normalised message, 0 for none. */
  function Tier(n: string, m: Museum): nat
  {
    Rank((x: Museum) => ExactMatch(n, x), (x: Museum) => PartialMatch(n, x), (x: Museum) => WordMatch(n, x), m)
  }

  /** `normalizeMessage(message.trim())` */
  function MatchKey(message: string): string
  {
    Normalize(Trim(message))
  }

  /** The first active museum at the best tier any active museum reaches. */
  function MatchMuseum(message: string, catalog: seq<Museum>): (r: Option<Museum>)
    ensures r.None? <==> forall m :: m in catalog && m.isActive ==> Tier(MatchKey(message), m) == 0
    ensures r.Some? ==> r.value in catalog && r.value.isActive
    ensures r.Some? ==>
              var n := MatchKey(message);
              var ms := Active(catalog);
              exists i :: 0 <= i < |ms| && ms[i] == r.value && Tier(n, r.value) > 0
                && (forall j :: 0 <= j < |ms| ==> Tier(n, ms[j]) == 0 || Tier(n, ms[j]) >= Tier(n, r.value))
                && (forall j :: 0 <= j < i ==> Tier(n, ms[j]) != Tier(n, r.value))
  {
    var n := MatchKey(message);
    var ms := Active(catalog);
    var i := TieredFirst(ms, (x: Museum) => ExactMatch(n, x), (x: Museum) => PartialMatch(n, x),
                         (x: Museum) => WordMatch(n, x));
    if i.None? then
      assert forall m :: m in ms ==> Tier(n, m) == 0;
      None
    else Some(ms[i.value])
  }

  /** A museum whose slug normalises to the empty string is a partial match
      for every message of three or more characters, because every string
      contains the empty string. */
  lemma BlankSlugMatchesAnyLongMessage(message: string, catalog: seq<Museum>, m: Museum)
    requires m in catalog && m.isActive
    requires Normalize(m.slug) == "" && |Normalize(m.name)| >= 3 && |MatchKey(message)| >= 3
    ensures MatchMuseum(message, catalog).Some?
    ensures Tier(MatchKey(message), MatchMuseum(message, catalog).value) <= 2
  {
    assert StartsWith(MatchKey(message), "");
    assert PartialMatch(MatchKey(message), m);
    var ms := Active(catalog);
    var i :| 0 <= i < |ms| && ms[i] == m;
  }
}
