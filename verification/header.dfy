/** The account avatar of `src/components/dashboard/header.tsx`. */
module Header {
  import opened Base
  import opened Types

  /** The directory id the header treats as the signed-in user. */
  const CurrentUserId := "user-current"

  /** The first character of every piece, empty pieces adding nothing
      (`parts.map(n => n[0]).join('')`, where a missing character joins as ""). */
  function FirstChars(parts: seq<string>): (r: string)
    ensures |r| <= |parts|
  {
    if |parts| == 0 then "" else FirstChar(parts[0]) + FirstChars(parts[1..])
  }

  /** `name.split(' ').map(n => n[0]).join('')`. */
  function Initials(name: string): (r: string)
    ensures r == WordStarts(name, true)
  {
    InitialsAreWordStarts(name);
    FirstChars(Split(name, ' '))
  }

  /** Reference definition: the characters of `s` that are not spaces and
      follow a space, or start the string when `atStart` holds. */
  function WordStarts(s: string, atStart: bool): (r: string)
    ensures |r| <= |s|
    ensures forall c :: c in r ==> c in s && c != ' '
    decreases |s|
  {
    if |s| == 0 then ""
    else (if s[0] != ' ' && atStart then [s[0]] else "") + WordStarts(s[1..], s[0] == ' ')
  }

  /** The initials are the first letters of the words, however many spaces
      separate them; the second clause covers a string that continues a word. */
  lemma {:induction false} InitialsAreWordStarts(s: string)
    ensures FirstChars(Split(s, ' ')) == WordStarts(s, true)
    ensures FirstChars(Split(s, ' ')[1..]) == WordStarts(s, false)
    decreases |s|
  {
    if |s| > 0 {
      var rest := Split(s[1..], ' ');
      InitialsAreWordStarts(s[1..]);
      if s[0] == ' ' {
        assert Split(s, ' ') == [""] + rest;
        assert Split(s, ' ')[1..] == rest;
      } else {
        var parts := [[s[0]] + rest[0]] + rest[1..];
        assert Split(s, ' ') == parts;
        assert parts[1..] == rest[1..];
        assert FirstChar(parts[0]) == [s[0]];
      }
    }
  }

  /** The avatar text: the signed-in user's initials, or "U" when there is
      no such user or the initials come out empty. */
  function AvatarText(users: seq<User>): (r: string)
    ensures r != ""
    ensures FindUser(users, CurrentUserId).None? ==> r == "U"
    ensures FindUser(users, CurrentUserId).Some? ==>
              r == OrElse(WordStarts(FindUser(users, CurrentUserId).value.name, true), "U")
  {
    var u := FindUser(users, CurrentUserId);
    if u.Some? then
      InitialsAreWordStarts(u.value.name);
      OrElse(Initials(u.value.name), "U")
    else "U"
  }

  /** A name of blanks only falls back to "U". */
  lemma {:induction false} BlankNameGivesNoInitials(s: string)
    requires forall i :: 0 <= i < |s| ==> s[i] == ' '
    ensures Initials(s) == ""
    decreases |s|
  {
    InitialsAreWordStarts(s);
    BlankWordStarts(s, true);
  }

  lemma {:induction false} BlankWordStarts(s: string, atStart: bool)
    requires forall i :: 0 <= i < |s| ==> s[i] == ' '
    ensures WordStarts(s, atStart) == ""
    decreases |s|
  {
    if |s| > 0 {
      BlankWordStarts(s[1..], true);
    }
  }
}
