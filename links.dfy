/**
 * The call and WhatsApp links both pages put next to a phone number. The
 * contacts page's `tel:` link keeps the number with its whitespace removed;
 * the dashboard's keeps the number as it is. The WhatsApp link keeps only
 * the digits, after the Malaysian country-code prefix "6", on both pages.
 */
module Links {
  import opened Text

  const TelPrefix := "tel:"
  const WhatsAppPrefix := "https://wa.me/6"
  /** The phone the dashboard shows when the contacts sheet has no number for a doctor. */
  const UnknownPhone := "Unknown"
  /** The link target used when there is no number to link to. */
  const NoLink := "#"

  /** `phone.replace(/\s+/g, '')`: every non-whitespace character kept, as often as it occurs. */
  function StripWhitespace(s: string): (r: string)
    ensures |r| <= |s|
    ensures forall k | 0 <= k < |r| :: !IsWhitespace(r[k])
  {
    if s == [] then []
    else if IsWhitespace(s[0]) then StripWhitespace(s[1..])
    else [s[0]] + StripWhitespace(s[1..])
  }

  /** `phone.replace(/\D/g, '')`: every digit kept, as often as it occurs. */
  function DigitsOnly(s: string): (r: string)
    ensures |r| <= |s|
    ensures forall k | 0 <= k < |r| :: IsDigit(r[k])
  {
    if s == [] then []
    else if IsDigit(s[0]) then [s[0]] + DigitsOnly(s[1..])
    else DigitsOnly(s[1..])
  }

  /** Removing whitespace works piecewise, so it keeps every other character in order. */
  lemma {:induction false} StripWhitespaceAppend(a: string, b: string)
    ensures StripWhitespace(a + b) == StripWhitespace(a) + StripWhitespace(b)
  {
    if a != [] {
      assert (a + b)[1..] == a[1..] + b;
      StripWhitespaceAppend(a[1..], b);
    } else {
      assert a + b == b;
    }
  }

  /** Keeping digits works piecewise, so it keeps the digits in order. */
  lemma {:induction false} DigitsOnlyAppend(a: string, b: string)
    ensures DigitsOnly(a + b) == DigitsOnly(a) + DigitsOnly(b)
  {
    if a != [] {
      assert (a + b)[1..] == a[1..] + b;
      DigitsOnlyAppend(a[1..], b);
    } else {
      assert a + b == b;
    }
  }

  /** `StripWhitespace` keeps every non-whitespace character as often as it occurs, and nothing else. */
  lemma {:induction false} StripWhitespaceCounts(s: string)
    ensures forall c :: multiset(StripWhitespace(s))[c] == if IsWhitespace(c) then 0 else multiset(s)[c]
  {
    if s != [] {
      StripWhitespaceCounts(s[1..]);
      assert s == [s[0]] + s[1..];
    }
  }

  /** `DigitsOnly` keeps every digit as often as it occurs, and nothing else. */
  lemma {:induction false} DigitsOnlyCounts(s: string)
    ensures forall c :: multiset(DigitsOnly(s))[c] == if IsDigit(c) then multiset(s)[c] else 0
  {
    if s != [] {
      DigitsOnlyCounts(s[1..]);
      assert s == [s[0]] + s[1..];
    }
  }

  /** A single character is dropped exactly when it is whitespace. */
  lemma StripWhitespaceChar(c: char)
    ensures StripWhitespace([c]) == if IsWhitespace(c) then [] else [c]
  {
  }

  /** A single character is kept exactly when it is a digit. */
  lemma DigitsOnlyChar(c: char)
    ensures DigitsOnly([c]) == if IsDigit(c) then [c] else []
  {
  }

  /**
   * Adding a character at the end adds it to the result exactly when it is not
   * whitespace: with `StripWhitespaceChar` this fixes the result character by
   * character, in order.
   */
  lemma StripWhitespaceSnoc(s: string, c: char)
    ensures StripWhitespace(s + [c]) == StripWhitespace(s) + (if IsWhitespace(c) then [] else [c])
  {
    StripWhitespaceAppend(s, [c]);
    StripWhitespaceChar(c);
  }

  /** Adding a character at the end adds it to the result exactly when it is a digit. */
  lemma DigitsOnlySnoc(s: string, c: char)
    ensures DigitsOnly(s + [c]) == DigitsOnly(s) + (if IsDigit(c) then [c] else [])
  {
    DigitsOnlyAppend(s, [c]);
    DigitsOnlyChar(c);
  }

  /** Text without whitespace is left as it is. */
  lemma {:induction false} StripWhitespaceKeeps(s: string)
    requires forall k | 0 <= k < |s| :: !IsWhitespace(s[k])
    ensures StripWhitespace(s) == s
  {
    if s != [] {
      StripWhitespaceKeeps(s[1..]);
    }
  }

  /** The WhatsApp number is the digits of the `tel:` number: both links dial the same digits. */
  lemma {:induction false} DigitsOfStripped(s: string)
    ensures DigitsOnly(StripWhitespace(s)) == DigitsOnly(s)
  {
    if s != [] {
      DigitsOfStripped(s[1..]);
      if !IsWhitespace(s[0]) {
        assert StripWhitespace(s) == [s[0]] + StripWhitespace(s[1..]);
        assert ([s[0]] + StripWhitespace(s[1..]))[1..] == StripWhitespace(s[1..]);
      }
    }
  }

  /** `tel:${phone.replace(/\s+/g, '')}`. */
  function TelLink(phone: string): (link: string)
    ensures |link| >= |TelPrefix| && link[..|TelPrefix|] == TelPrefix
    ensures forall k | |TelPrefix| <= k < |link| :: !IsWhitespace(link[k])
    ensures link[|TelPrefix|..] == StripWhitespace(phone)
  {
    TelPrefix + StripWhitespace(phone)
  }

  /** `https://wa.me/6${phone.replace(/\D/g, '')}`. */
  function WhatsAppLink(phone: string): (link: string)
    ensures |link| >= |WhatsAppPrefix| && link[..|WhatsAppPrefix|] == WhatsAppPrefix
    ensures forall k | |WhatsAppPrefix| <= k < |link| :: IsDigit(link[k])
    ensures link[|WhatsAppPrefix|..] == DigitsOnly(phone)
  {
    WhatsAppPrefix + DigitsOnly(phone)
  }

  lemma TelAndWhatsAppAgree(phone: string)
    ensures WhatsAppLink(TelLink(phone)[|TelPrefix|..]) == WhatsAppLink(phone)
  {
    assert TelLink(phone)[|TelPrefix|..] == StripWhitespace(phone);
    DigitsOfStripped(phone);
  }

  datatype PhoneLinks = PhoneLinks(tel: string, whatsApp: string)

  /**
   * The dashboard's links for one doctor: `tel:${phone}` unchanged and the
   * WhatsApp link, or `#` for both when the phone is unknown.
   */
  function DoctorLinks(phone: string): (links: PhoneLinks)
    ensures phone == UnknownPhone <==> links.tel == NoLink
    ensures phone == UnknownPhone <==> links.whatsApp == NoLink
    ensures phone != UnknownPhone ==>
              |links.tel| == |TelPrefix| + |phone| && links.tel[..|TelPrefix|] == TelPrefix
              && links.tel[|TelPrefix|..] == phone && links.whatsApp == WhatsAppLink(phone)
  {
    if phone != UnknownPhone then PhoneLinks(TelPrefix + phone, WhatsAppLink(phone))
    else PhoneLinks(NoLink, NoLink)
  }

  /** For a number without whitespace, the two pages build the same links. */
  lemma SameLinksWithoutWhitespace(phone: string)
    requires phone != UnknownPhone
    requires forall k | 0 <= k < |phone| :: !IsWhitespace(phone[k])
    ensures DoctorLinks(phone) == ContactLinks(phone)
  {
    StripWhitespaceKeeps(phone);
  }

  /** The contacts page's links for one contact: always built from the phone. */
  function ContactLinks(phone: string): (links: PhoneLinks)
    ensures links.tel == TelLink(phone) && links.whatsApp == WhatsAppLink(phone)
    ensures links.whatsApp == WhatsAppLink(links.tel[|TelPrefix|..])
  {
    TelAndWhatsAppAgree(phone);
    PhoneLinks(TelLink(phone), WhatsAppLink(phone))
  }
}
