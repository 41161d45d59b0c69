/** The keyword predicates of the chat controller: every one of them looks at
    the message lower-cased and trimmed, and either compares it with a fixed
    vocabulary, looks for a fixed phrase inside it, or looks for a fixed word
    among its white-space separated words. */
module Intents {
  import opened Strings

  /** `normalizeMessage`: `toLowerCase().trim()`. The result has no capital
      ASCII letter and no white space at either end, so normalising it again
      changes nothing (`NormalizeIdempotent`). */
  function Normalize(message: string): (r: string)
    ensures |r| <= |message|
    ensures NoCapital(r)
    ensures r == [] || (!IsSpace(r[0]) && !IsSpace(r[|r| - 1]))
  {
    LowerHasNoCapital(message);
    TrimKeepsNoCapital(ToLower(message));
    Trim(ToLower(message))
  }

  /** No letter from 'A' to 'Z' occurs in `s`. */
  predicate NoCapital(s: string)
  {
    forall k :: 0 <= k < |s| ==> !('A' <= s[k] <= 'Z')
  }

  lemma LowerHasNoCapital(s: string)
    ensures NoCapital(ToLower(s))
  {
  }

  /** Trimming only removes characters, so it adds no capital. */
  lemma TrimKeepsNoCapital(s: string)
    requires NoCapital(s)
    ensures NoCapital(Trim(s))
  {
    var r := Trim(s);
    var i :| TrimmedAt(s, r, i);
    forall k | 0 <= k < |r|
      ensures !('A' <= r[k] <= 'Z')
    {
      assert r[k] == s[i + k];
    }
  }

  const ExactGreetings: seq<string> := ["hi", "hello", "hey", "hai", "yo", "greetings", "greeting"]
  const GreetingPhrases: seq<string> := ["good morning", "good afternoon", "good evening", "good night", "good day"]
  const GreetingWords: seq<string> := ["hi", "hello", "hey", "hai"]

  predicate IsGreeting(message: string)
  {
    var n := Normalize(message);
    || n in ExactGreetings
    || AnyContains(n, GreetingPhrases)
    || exists w :: w in Words(n) && w in GreetingWords
  }

  const BookingWords: seq<string> := ["ticket", "tickets", "book", "booking", "museum"]
  const BookingPhrases: seq<string> := [
    "book ticket", "book tickets", "museum tickets", "i want to book",
    "want to book", "book museum", "book a ticket", "book a museum",
    "new booking", "make booking", "buy ticket", "reserve ticket",
    "buy tickets", "reserve tickets", "get tickets", "get ticket",
    "i want tickets", "i need tickets", "i need ticket", "i want ticket"]

  predicate WantsBooking(message: string)
  {
    var n := Normalize(message);
    || (exists w :: w in Words(n) && w in BookingWords)
    || AnyContains(n, BookingPhrases)
  }

  const SupportKeywords: seq<string> :=
    ["create support ticket", "raise complaint", "support ticket", "file complaint", "create ticket", "help ticket"]

  predicate WantsSupportTicket(message: string)
  {
    AnyContains(Normalize(message), SupportKeywords)
  }

  const MyBookingsKeywords: seq<string> :=
    ["show my bookings", "my bookings", "my tickets", "show bookings", "booking history", "view bookings", "list bookings"]

  predicate WantsMyBookings(message: string)
  {
    AnyContains(Normalize(message), MyBookingsKeywords)
  }

  const DownloadKeywords: seq<string> :=
    ["download ticket", "download my ticket", "get ticket pdf", "ticket pdf", "download pdf"]

  predicate WantsDownloadTicket(message: string)
  {
    AnyContains(Normalize(message), DownloadKeywords)
  }

  const MuseumListKeywords: seq<string> :=
    ["what museums", "list museums", "show museums", "available museums", "museums available", "which museums"]

  predicate WantsMuseumList(message: string)
  {
    AnyContains(Normalize(message), MuseumListKeywords)
  }

  const HelpKeywords: seq<string> := ["help", "i need help", "assistance", "support", "how can you help"]

  predicate WantsHelp(message: string)
  {
    AnyContains(Normalize(message), HelpKeywords)
  }

  const CancelKeywords: seq<string> :=
    ["cancel", "stop", "nevermind", "never mind", "no thanks", "no thank you", "exit", "quit"]

  predicate WantsCancel(message: string)
  {
    AnyContains(Normalize(message), CancelKeywords)
  }

  const GoBackKeywords: seq<string> := ["go back", "back", "undo", "previous", "change", "modify", "edit"]

  /** The source tests `normalized === keyword || normalized.includes(keyword)`. */
  predicate WantsGoBack(message: string)
  {
    var n := Normalize(message);
    exists k :: k in GoBackKeywords && (n == k || Contains(n, k))
  }

  const ConfirmKeywords: seq<string> :=
    ["yes", "y", "ok", "okay", "confirm", "proceed", "continue", "pay", "payment", "sure", "go ahead"]

  predicate IsConfirmation(message: string)
  {
    var n := Normalize(message);
    exists k :: k in ConfirmKeywords && (n == k || Contains(n, k))
  }

  /** The equality test in `wantsGoBack` adds nothing: going back is exactly
      "some go-back keyword occurs in the normalised message". */
  lemma GoBackIsContainment(message: string)
    ensures WantsGoBack(message) <==> AnyContains(Normalize(message), GoBackKeywords)
  {
    var n := Normalize(message);
    if WantsGoBack(message) {
      var k :| k in GoBackKeywords && (n == k || Contains(n, k));
      if n == k {
        ContainsSelf(n);
      }
    }
  }

  /** Likewise for `isConfirmation`. */
  lemma ConfirmationIsContainment(message: string)
    ensures IsConfirmation(message) <==> AnyContains(Normalize(message), ConfirmKeywords)
  {
    var n := Normalize(message);
    if IsConfirmation(message) {
      var k :| k in ConfirmKeywords && (n == k || Contains(n, k));
      if n == k {
        ContainsSelf(n);
      }
    }
  }

  /** Because the keyword "y" is tested with `includes`, every message that
      contains the letter y (in either case) counts as a confirmation. */
  lemma LetterYConfirms(message: string, i: int)
    requires OccursAt(Normalize(message), "y", i)
    ensures IsConfirmation(message)
  {
    ContainsAt(Normalize(message), "y", i);
    assert "y" in ConfirmKeywords;
  }

  lemma ToLowerOfLower(s: string)
    requires forall k :: 0 <= k < |s| ==> !('A' <= s[k] <= 'Z')
    ensures ToLower(s) == s
  {
  }

  /** Splitting `a + " " + b` where `a` is a non-empty word and `b` does not
      start with white space yields `a` followed by the words of `b`. */
  lemma {:induction false} WordsCons(a: string, b: string)
    requires a != [] && NoSpace(a) && (b == [] || !IsSpace(b[0]))
    ensures Words(a + " " + b) == [a] + Words(b)
  {
    var s := a + " " + b;
    assert s[|a|] == ' ';
    var i := FirstSpace(s);
    assert i == |a|;
    var j := SpaceRunEnd(s, i);
    if |b| > 0 {
      assert s[|a| + 1] == b[0];
    }
    assert j == |a| + 1;
    assert s[..i] == a;
    assert s[j..] == b;
  }

  /** A message without upper-case letters and without surrounding white
      space is its own normal form. */
  lemma NormalizeFixed(m: string)
    requires forall k :: 0 <= k < |m| ==> !('A' <= m[k] <= 'Z')
    requires m == [] || (!IsSpace(m[0]) && !IsSpace(m[|m| - 1]))
    ensures Normalize(m) == m
  {
    ToLowerOfLower(m);
  }

  /** Normalising twice is normalising once. */
  lemma NormalizeIdempotent(message: string)
    ensures Normalize(Normalize(message)) == Normalize(message)
  {
    NormalizeFixed(Normalize(message));
  }

  /** The last word of `q + " " + w` is `w`, whatever words `q` holds. */
  lemma {:induction false} WordsSnoc(q: string, w: string)
    requires q != [] && !IsSpace(q[|q| - 1])
    requires w != [] && NoSpace(w)
    ensures w in Words(q + " " + w)
    decreases |q|
  {
    var s := q + " " + w;
    var i := FirstSpace(s);
    if i >= |q| {
      assert NoSpace(q) by {
        forall k | 0 <= k < |q| ensures !IsSpace(q[k]) { assert s[k] == q[k]; }
      }
      WordsOfNoSpace(w);
      WordsCons(q, w);
    } else {
      var j := SpaceRunEnd(s, i);
      assert s[|q| - 1] == q[|q| - 1];
      assert j < |q|;
      var q' := q[j..];
      assert s[j..] == q' + " " + w;
      WordsSnoc(q', w);
    }
  }

  /** A normalised message that ends in the standalone word "ticket" (such as
      the support phrases "support ticket", "create ticket" and "help ticket",
      and "create support ticket") is booking vocabulary. Since the booking rule
      is tried before the support rule, such a message never starts the
      support flow. */
  lemma EndsWithTicketIsBooking(message: string, q: string)
    requires q != [] && !IsSpace(q[|q| - 1])
    requires Normalize(message) == q + " " + "ticket"
    ensures WantsBooking(message)
  {
    TicketIsOneWord();
    WordsSnoc(q, "ticket");
    assert "ticket" in Words(Normalize(message));
    assert "ticket" in BookingWords;
  }

  /** "ticket" holds no white space. */
  lemma TicketIsOneWord()
    ensures NoSpace("ticket")
  {
  }

  lemma SupportTicketPhraseIsBooking(message: string)
    requires Normalize(message) == "support ticket"
    ensures WantsSupportTicket(message) && WantsBooking(message)
  {
    ContainsSelf(Normalize(message));
    assert "support ticket" in SupportKeywords;
    SupportTicketWords();
    EndsWithTicketIsBooking(message, "support");
  }

  /** The phrase as its two words. */
  lemma SupportTicketWords()
    ensures "support ticket" == "support" + " " + "ticket"
  {
  }
}
