/** The search box over the students table of the academic front end: a student is listed
    when the search term occurs in their full name, their id or their identification
    number. The footer counts the students listed, and rows are numbered from 1. */
module UserSearch {
  import opened Wrappers
  import opened Seqs
  import opened WebTypes

  /** `toLowerCase` on the ASCII letters; every other character is kept. */
  function LowerChar(c: char): char {
    if 'A' <= c <= 'Z' then (c as int + 32) as char else c
  }

  function Lower(s: string): (r: string)
    ensures |r| == |s| && forall k :: 0 <= k < |s| ==> r[k] == LowerChar(s[k])
  {
    seq(|s|, k requires 0 <= k < |s| => LowerChar(s[k]))
  }

  /** `t` occurs in `s` at position `i`. */
  predicate OccursAt(s: string, t: string, i: int) {
    0 <= i && i + |t| <= |s| && s[i..i + |t|] == t
  }

  /** `s.includes(t)`, scanning `s` from the front. */
  function Includes(s: string, t: string): (r: bool)
    ensures r <==> exists i :: OccursAt(s, t, i)
    decreases |s|
  {
    if |t| > |s| then false
    else if s[..|t|] == t then (assert OccursAt(s, t, 0); true)
    else
      var rest := Includes(s[1..], t);
      assert forall i :: OccursAt(s[1..], t, i) <==> OccursAt(s, t, i + 1);
      assert forall i :: OccursAt(s, t, i) && i > 0 ==> OccursAt(s[1..], t, i - 1);
      rest
  }

  /** The decimal digits of a natural number, most significant first. */
  function Digits(n: nat): (r: string)
    ensures |r| > 0 && forall k :: 0 <= k < |r| ==> '0' <= r[k] <= '9'
  {
    if n < 10 then [('0' as int + n) as char]
    else Digits(n / 10) + [('0' as int + n % 10) as char]
  }

  /** The number a string of decimal digits denotes, most significant first. */
  function DigitsValue(s: string): int {
    if |s| == 0 then 0 else DigitsValue(s[..|s| - 1]) * 10 + (s[|s| - 1] as int - '0' as int)
  }

  /** The digits printed for `n` denote `n`. */
  lemma {:induction false} DigitsDenote(n: nat)
    ensures DigitsValue(Digits(n)) == n
  {
    if n >= 10 {
      DigitsDenote(n / 10);
      var s := Digits(n);
      assert s[..|s| - 1] == Digits(n / 10);
    }
  }

  /** `identificationNumber.toString()` for an integer. */
  function DecimalString(n: int): string {
    if n < 0 then "-" + Digits(-n) else Digits(n)
  }

  /** `${x || ""}` */
  function OrEmpty(s: Option<string>): string {
    if Present(s) then s.value else ""
  }

  /** The four name parts separated by single spaces; a missing middle or second last name
      leaves its empty slot, so the separators around it remain. */
  function FullName(u: UserDto): string {
    u.firstName + " " + OrEmpty(u.middleName) + " " + u.lastName + " " + OrEmpty(u.secondLastName)
  }

  /** The filter's test: the lowercased term in the lowercased full name or id, or the term
      as typed in the identification number. */
  predicate Matches(u: UserDto, term: string) {
    || Includes(Lower(FullName(u)), Lower(term))
    || Includes(Lower(u.id), Lower(term))
    || Includes(DecimalString(u.identificationNumber), term)
  }

  function MatchesTerm(term: string): UserDto -> bool {
    (u: UserDto) => Matches(u, term)
  }

  /** The students listed for a search term: those that match, in their original order. */
  function FilterUsers(users: seq<UserDto>, term: string): (r: seq<UserDto>)
    ensures forall u :: u in r <==> u in users && Matches(u, term)
    ensures IsSubsequence(r, users)
    ensures |r| <= |users|
  {
    FilterIsSubsequence(users, MatchesTerm(term));
    Filter(users, MatchesTerm(term))
  }

  /** An empty search box lists every student. */
  lemma EmptyTermKeepsAll(users: seq<UserDto>)
    ensures FilterUsers(users, "") == users
  {
    forall k | 0 <= k < |users| ensures Matches(users[k], "") {
      assert OccursAt(Lower(FullName(users[k])), Lower(""), 0);
    }
    FilterKeepsAll(users, MatchesTerm(""));
  }

  /** Typing a student's id, or their identification number, lists that student. */
  lemma FindsByIdOrNumber(users: seq<UserDto>, u: UserDto)
    requires u in users
    ensures u in FilterUsers(users, u.id)
    ensures u in FilterUsers(users, DecimalString(u.identificationNumber))
  {
    assert OccursAt(Lower(u.id), Lower(u.id), 0);
    var n := DecimalString(u.identificationNumber);
    assert OccursAt(n, n, 0);
  }

  /** The number shown before the `index`-th listed student. */
  function RowNumber(index: nat): (r: nat)
    ensures r >= 1 && r == index + 1
  {
    index + 1
  }

  /** Rows are numbered 1 to n over the listed students, and the footer's total is n. */
  lemma RowsNumberedOneToTotal(users: seq<UserDto>, term: string)
    ensures forall index :: 0 <= index < |FilterUsers(users, term)| ==> 1 <= RowNumber(index) <= FooterTotal(users, term)
    ensures FooterTotal(users, term) <= |users|
  {
  }

  /** The count in the footer. */
  function FooterTotal(users: seq<UserDto>, term: string): nat {
    |FilterUsers(users, term)|
  }
}
