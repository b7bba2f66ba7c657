/*******************************************************************************
 *  src/components/EntryStatusMessage.jsx: the kiosk banner greeting a member
 *  whose card was just read, chosen by the status the backend reports, and
 *  `capitalize`, which upper-cases the first character of the greeted name.
 *******************************************************************************/

module EntryStatusMessage {
  import opened Js

  // ---------------------------------------------------------------------------
  // Upper case
  // ---------------------------------------------------------------------------

  /** `String.prototype.toUpperCase` on one character, for the range
      U+0000..U+017F (Basic Latin, Latin-1 and Latin Extended-A, which hold
      every letter of Czech). Characters outside that range are returned
      unchanged. `ß` and `ŉ` become two characters, as in JavaScript. */
  function UpperCase(c: char): (r: string)
    ensures 1 <= |r| <= 2
    ensures |r| == 2 <==> c == 'ß' || c == 0x149 as char
  {
    var n := c as int;
    if 'a' <= c <= 'z' then [(n - 32) as char]
    else if n == 0xB5 then [0x39C as char]
    else if n == 0xDF then "SS"
    else if 0xE0 <= n <= 0xFE && n != 0xF7 then [(n - 32) as char]
    else if n == 0xFF then [0x178 as char]
    else if n == 0x131 then "I"
    else if n == 0x149 then [0x2BC as char, 'N']
    else if n == 0x17F then "S"
    else if (0x101 <= n <= 0x12F && n % 2 == 1) || (0x133 <= n <= 0x137 && n % 2 == 1)
         || (0x13A <= n <= 0x148 && n % 2 == 0) || (0x14B <= n <= 0x177 && n % 2 == 1)
         || n == 0x17A || n == 0x17C || n == 0x17E
    then [(n - 1) as char]
    else [c]
  }

  /** A character that upper-casing leaves alone. */
  predicate IsUpperFixed(c: char) {
    UpperCase(c) == [c]
  }

  /** Every character upper-casing produces is left alone by a second
      upper-casing. */
  lemma UpperCaseIsFinal(c: char)
    ensures forall i :: 0 <= i < |UpperCase(c)| ==> IsUpperFixed(UpperCase(c)[i])
  {
  }

  /** `capitalize(s)`: `''` for the empty string, otherwise the upper case
      of the first character followed by the rest unchanged. */
  function Capitalize(s: string): (r: string)
    ensures s == "" <==> r == ""
    ensures |s| <= |r| <= |s| + 1
    ensures s != "" ==> IsUpperFixed(r[0])
    ensures s != "" ==> r[|r| - (|s| - 1)..] == s[1..]
  {
    if s == "" then ""
    else
      UpperCaseIsFinal(s[0]);
      var r := UpperCase(s[0]) + s[1..];
      assert r[|r| - (|s| - 1)..] == s[1..];
      r
  }

  /** The length is kept whenever the first character has a one-character
      upper case, which is every character except `ß` and `ŉ`. */
  lemma CapitalizeKeepsLength(s: string)
    requires s != "" ==> |UpperCase(s[0])| == 1
    ensures |Capitalize(s)| == |s|
    ensures s != "" ==> Capitalize(s)[0] == UpperCase(s[0])[0]
  {
  }

  /** Capitalising twice is capitalising once. */
  lemma CapitalizeIdempotent(s: string)
    ensures Capitalize(Capitalize(s)) == Capitalize(s)
  {
    if s != "" {
      var r := Capitalize(s);
      UpperCaseIsFinal(s[0]);
      assert r == UpperCase(s[0]) + s[1..];
      assert UpperCase(r[0]) == [r[0]];
      assert r == [r[0]] + r[1..];
    }
  }

  lemma CapitalizeLetter(c: char, rest: string, upper: char)
    requires UpperCase(c) == [upper]
    ensures Capitalize([c] + rest) == [upper] + rest
  {
    assert ([c] + rest)[0] == c && ([c] + rest)[1..] == rest;
  }

  /** Names starting with a Czech caron or acute letter are capitalised,
      whatever follows the first letter. */
  lemma CapitalizeCzech(rest: string)
    ensures Capitalize(['ř'] + rest) == ['Ř'] + rest
    ensures Capitalize(['š'] + rest) == ['Š'] + rest
    ensures Capitalize(['č'] + rest) == ['Č'] + rest
    ensures Capitalize(['ž'] + rest) == ['Ž'] + rest
    ensures Capitalize(['á'] + rest) == ['Á'] + rest
  {
    CapitalizeLetter('ř', rest, 'Ř');
    CapitalizeLetter('š', rest, 'Š');
    CapitalizeLetter('č', rest, 'Č');
    CapitalizeLetter('ž', rest, 'Ž');
    CapitalizeLetter('á', rest, 'Á');
  }

  // ---------------------------------------------------------------------------
  // The banner
  // ---------------------------------------------------------------------------

  /** A status message as the backend pushes it. */
  datatype Message = Message(firstname: Json, status: Json, expiryDate: Json, remainingEntries: Json)

  /** What the banner shows under the greeting line. */
  datatype Greeting =
    | SubscriptionActive(name: string, expiryDate: Json)
    | EntriesRemaining(name: string, remainingEntries: Json)
    | NoValidEntry(name: string)

  /** The idle `MILANO GYM` heading, or the message container with its
      greeting (`null` content for an unrecognised status). */
  datatype Banner = Idle | Panel(content: Option<Greeting>)

  const OK_SUBSCRIPTION: string := "OK_SUBSCRIPTION"
  const OK_ONE_TIME_ENTRY: string := "OK_ONE_TIME_ENTRY"
  const NO_VALID_ENTRY: string := "NO_VALID_ENTRY"

  /** `message.firstname || ''` as text handed to the declension. */
  function FirstNameText(firstname: Json): string {
    if firstname.JStr? then firstname.s else ""
  }

  /** `EntryStatusMessage({message})`, with the Czech vocative declension
      passed in as `vocative`. `None` is a falsy `message`. */
  function Render(message: Option<Message>, vocative: string -> string): (b: Banner)
    ensures message.None? <==> b == Idle
    ensures b.Panel? && b.content.Some? ==> b.content.value.name == Capitalize(vocative(FirstNameText(message.value.firstname)))
  {
    match message
    case None => Idle
    case Some(m) =>
      var name := Capitalize(vocative(FirstNameText(m.firstname)));
      if m.status == JStr(OK_SUBSCRIPTION) then Panel(Some(SubscriptionActive(name, m.expiryDate)))
      else if m.status == JStr(OK_ONE_TIME_ENTRY) then Panel(Some(EntriesRemaining(name, m.remainingEntries)))
      else if m.status == JStr(NO_VALID_ENTRY) then Panel(Some(NoValidEntry(name)))
      else Panel(None)
  }

  predicate ShowsExpiry(b: Banner) {
    b.Panel? && b.content.Some? && b.content.value.SubscriptionActive?
  }

  predicate ShowsRemaining(b: Banner) {
    b.Panel? && b.content.Some? && b.content.value.EntriesRemaining?
  }

  /** The status alone decides what the banner shows: the expiry date exactly
      for `OK_SUBSCRIPTION`, the remaining entries exactly for
      `OK_ONE_TIME_ENTRY`, neither for `NO_VALID_ENTRY`, and no content for
      any other status; the values shown are the message's own. */
  lemma StatusDecidesContent(m: Message, vocative: string -> string)
    ensures var b := Render(Some(m), vocative);
            && (ShowsExpiry(b) <==> m.status == JStr(OK_SUBSCRIPTION))
            && (ShowsRemaining(b) <==> m.status == JStr(OK_ONE_TIME_ENTRY))
            && !(ShowsExpiry(b) && ShowsRemaining(b))
            && (ShowsExpiry(b) ==> b.content.value.expiryDate == m.expiryDate)
            && (ShowsRemaining(b) ==> b.content.value.remainingEntries == m.remainingEntries)
            && (m.status == JStr(NO_VALID_ENTRY) <==> b.Panel? && b.content.Some? && b.content.value.NoValidEntry?)
            && (b.content.None? <==> m.status !in {JStr(OK_SUBSCRIPTION), JStr(OK_ONE_TIME_ENTRY), JStr(NO_VALID_ENTRY)})
  {
  }
}
