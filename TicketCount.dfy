/** `extractTicketCount` of the chat controller: the first run of digits in
    the message if it is a count from 1 to 100, otherwise the first entry of a
    fixed table of number words that occurs in the normalised message. */
module TicketCount {
  import opened Wrappers
  import opened Strings
  import opened Intents

  /** Number of leading digits of `s`. */
  function DigitRunLength(s: string): (n: nat)
    ensures n <= |s| && AllDigits(s[..n]) && (n < |s| ==> !IsDigit(s[n]))
  {
    if s != [] && IsDigit(s[0]) then
      var n := 1 + DigitRunLength(s[1..]);
      assert s[..n] == [s[0]] + s[1..][..n - 1];
      n
    else 0
  }

  /** `s[i..j]` is the first maximal run of digits of `s`. */
  predicate FirstRunAt(s: string, i: int, j: int)
  {
    && 0 <= i < j <= |s|
    && (forall k :: 0 <= k < i ==> !IsDigit(s[k]))
    && AllDigits(s[i..j])
    && (j < |s| ==> !IsDigit(s[j]))
  }

  /** `s.match(/\d+/)` followed by `parseInt(…, 10)`. */
  function FirstNumber(s: string): (r: Option<nat>)
    ensures r.None? <==> forall k :: 0 <= k < |s| ==> !IsDigit(s[k])
    ensures r.Some? ==> exists i, j :: FirstRunAt(s, i, j) && r.value == DigitsValue(s[i..j])
  {
    if s == [] then None
    else if IsDigit(s[0]) then
      var n := DigitRunLength(s);
      assert FirstRunAt(s, 0, n);
      Some(DigitsValue(s[..n]))
    else
      var r := FirstNumber(s[1..]);
      if r.None? then r
      else
        var i, j :| FirstRunAt(s[1..], i, j) && r.value == DigitsValue(s[1..][i..j]);
        assert s[i + 1..j + 1] == s[1..][i..j];
        assert FirstRunAt(s, i + 1, j + 1);
        r
  }

  /** The word table, in the order in which the source lists it (and looks it up). */
  function WordNumbers(): seq<(string, nat)> { [
    ("one", 1), ("two", 2), ("three", 3), ("four", 4), ("five", 5),
    ("six", 6), ("seven", 7), ("eight", 8), ("nine", 9), ("ten", 10),
    ("eleven", 11), ("twelve", 12), ("thirteen", 13), ("fourteen", 14), ("fifteen", 15),
    ("single", 1), ("double", 2), ("couple", 2), ("few", 3)]
  }

  lemma WordValuesInRange()
    ensures forall i :: 0 <= i < |WordNumbers()| ==> 1 <= WordNumbers()[i].1 <= 15
  {
  }

  /** The value of the first table entry whose word occurs in `n`. */
  function WordNumber(n: string, table: seq<(string, nat)>): (r: Option<nat>)
    ensures r.None? <==> forall i :: 0 <= i < |table| ==> !Contains(n, table[i].0)
    ensures r.Some? ==> exists i :: 0 <= i < |table| && table[i].1 == r.value && Contains(n, table[i].0)
                                    && forall j :: 0 <= j < i ==> !Contains(n, table[j].0)
  {
    if table == [] then None
    else if Contains(n, table[0].0) then Some(table[0].1)
    else
      var r := WordNumber(n, table[1..]);
      if r.None? then r
      else
        var i :| 0 <= i < |table| - 1 && table[1..][i].1 == r.value && Contains(n, table[1..][i].0)
                 && forall j :: 0 <= j < i ==> !Contains(n, table[1..][j].0);
        assert forall j :: 1 <= j < i + 1 ==> table[j] == table[1..][j - 1];
        assert table[i + 1] == table[1..][i];
        r
  }

  function ExtractTicketCount(message: string): (r: Option<nat>)
    ensures r.Some? ==> 1 <= r.value <= 100
    ensures forall v :: FirstNumber(message) == Some(v) && 1 <= v <= 100 ==> r == Some(v)
    ensures !(FirstNumber(message).Some? && 1 <= FirstNumber(message).value <= 100) ==>
              r == WordNumber(Normalize(message), WordNumbers())
  {
    var number := FirstNumber(message);
    if number.Some? && 0 < number.value <= 100 then number
    else
      WordValuesInRange();
      WordNumber(Normalize(message), WordNumbers())
  }

  /** The entry found is the first one that occurs. */
  lemma WordNumberFirst(n: string, table: seq<(string, nat)>, i: nat)
    requires i < |table| && Contains(n, table[i].0)
    requires forall j :: 0 <= j < i ==> !Contains(n, table[j].0)
    ensures WordNumber(n, table) == Some(table[i].1)
  {
    var r := WordNumber(n, table);
    var k :| 0 <= k < |table| && table[k].1 == r.value && Contains(n, table[k].0)
             && forall j :: 0 <= j < k ==> !Contains(n, table[j].0);
    assert k == i;
  }

  lemma FirstFourWords()
    ensures WordNumbers()[0].0 == "one" && WordNumbers()[1].0 == "two"
    ensures WordNumbers()[2].0 == "three" && WordNumbers()[3] == ("four", 4)
  {
  }

  lemma FourIsFourthWord(n: string)
    requires Contains(n, "four")
    requires !Contains(n, "one") && !Contains(n, "two") && !Contains(n, "three")
    ensures WordNumber(n, WordNumbers()) == Some(4)
  {
    FirstFourWords();
    WordNumberFirst(n, WordNumbers(), 3);
  }

  lemma FourInFourteen()
    ensures Contains("fourteen", "four")
  {
    assert OccursAt("fourteen", "four", 0);
    ContainsAt("fourteen", "four", 0);
  }

  /** Words are matched by containment in table order, so "fourteen" is read
      as 4: "four" comes earlier in the table and occurs inside it. */
  lemma FourteenReadsAsFour(message: string)
    requires FirstNumber(message).None?
    requires Contains(Normalize(message), "fourteen")
    requires !Contains(Normalize(message), "one") && !Contains(Normalize(message), "two")
    requires !Contains(Normalize(message), "three")
    ensures ExtractTicketCount(message) == Some(4)
  {
    var n := Normalize(message);
    FourInFourteen();
    ContainsTrans(n, "fourteen", "four");
    FourIsFourthWord(n);
  }
}
