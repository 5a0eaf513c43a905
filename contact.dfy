/** The contact panel of client/src/components/Contact.jsx: the landlord record loaded
    for a listing, the message being typed, and the `mailto:` link built from both. */
module Contact {
  import opened Wrappers
  import opened Strings
  import opened UriEncoding

  /** The user record the API answers with; a field the body lacks is None. An error
      body such as `{success: false, message}` is a record without an email. */
  datatype Landlord = Landlord(email: Option<string>, username: Option<string>, avatar: Option<string>)

  /** What a template literal writes for a field: its text, or `undefined`. */
  function FieldText(field: Option<string>): (text: string)
    ensures field.Some? ==> text == field.value
    ensures field.None? ==> text == "undefined"
  {
    match field
    case Some(v) => v
    case None => "undefined"
  }

  const SubjectLead := "?subject=Inquiry about "
  const BodyLead := "&body="

  /** The link target: the subject is the listing name as it is, only the body is passed
      through `encodeURIComponent`. */
  function MailtoHref(email: string, listingName: string, message: string): (href: string)
    ensures |href| == |"mailto:" + email| + |SubjectLead| + |listingName| + |BodyLead| + |EncodeUriComponent(message)|
    ensures href[..|"mailto:" + email|] == "mailto:" + email
    ensures href[|href| - |EncodeUriComponent(message)|..] == EncodeUriComponent(message)
  {
    "mailto:" + email + SubjectLead + listingName + BodyLead + EncodeUriComponent(message)
  }

  /** The panel. `landlord` starts as `null`, the message as `""`. */
  class ContactPanel {
    var landlord: Option<Landlord>
    var message: string

    constructor()
      ensures landlord == None && message == ""
    {
      landlord := None;
      message := "";
    }

    /** `onChange` of the message box. */
    method OnChange(value: string)
      modifies this
      ensures message == value && landlord == old(landlord)
    {
      message := value;
    }

    /** The landlord fetch settled: any parsed body is stored, whatever it holds; when
        the request or the JSON parse threw (`reply` None) the error is only logged. */
    method LandlordFetched(reply: Option<Landlord>)
      modifies this
      ensures reply.Some? ==> landlord == reply
      ensures reply.None? ==> landlord == old(landlord)
      ensures message == old(message)
    {
      if reply.Some? {
        landlord := reply;
      }
    }

    /** The rendered link: nothing is rendered until a landlord record is present. */
    function Href(listingName: string): (href: Option<string>)
      reads this
      ensures href.Some? <==> landlord.Some?
      ensures href.Some? ==>
        href.value == MailtoHref(FieldText(landlord.value.email), listingName, message)
    {
      match landlord
      case None => None
      case Some(l) => Some(MailtoHref(FieldText(l.email), listingName, message))
    }
  }

  /** Splitting on a character that occurs exactly once yields the two sides. */
  lemma SplitAtOnly(head: string, c: char, tail: string)
    requires c !in head && c !in tail
    ensures Split(head + [c] + tail, [c]) == [head, tail]
  {
    ContainsChar(head, c);
    ContainsChar(tail, c);
    SplitAfterFirst(head, [c], tail);
    SplitWithout(tail, [c]);
  }

  /** Splitting on a character gives, first, the text before its first occurrence. */
  lemma SplitFirstPiece(head: string, c: char, tail: string)
    requires c !in head
    ensures Split(head + [c] + tail, [c])[0] == head
  {
    ContainsChar(head, c);
    SplitAfterFirst(head, [c], tail);
  }

  /** The fixed parts of the link hold neither `&` nor `#`. */
  lemma LeadsHaveNoDelimiters()
    ensures '&' !in "mailto:" && '&' !in SubjectLead && '&' !in "body="
    ensures '#' !in "mailto:" && '#' !in SubjectLead
  {
  }

  /** The link is the subject part, `&`, and the body parameter. */
  lemma HrefAtAmpersand(email: string, listingName: string, message: string)
    ensures MailtoHref(email, listingName, message) ==
      ("mailto:" + email + SubjectLead + listingName) + "&" + ("body=" + EncodeUriComponent(message))
  {
    assert BodyLead == "&" + "body=";
  }

  /** With no `&` in the email or the listing name, the query of the link has exactly
      two parameters, and the second is `body=` followed by the encoded message. */
  lemma HrefHasTwoParameters(email: string, listingName: string, message: string)
    requires '&' !in email && '&' !in listingName
    ensures Split(MailtoHref(email, listingName, message), "&") ==
      ["mailto:" + email + SubjectLead + listingName, "body=" + EncodeUriComponent(message)]
  {
    var head := "mailto:" + email + SubjectLead + listingName;
    var body := "body=" + EncodeUriComponent(message);
    LeadsHaveNoDelimiters();
    EncodedHasNoDelimiters(message);
    assert '&' !in head && '&' !in body;
    HrefAtAmpersand(email, listingName, message);
    SplitAtOnly(head, '&', body);
  }

  /** Whatever the message holds, the encoded body adds no `&`, `=`, `#` or `?` to the
      link: the message cannot open a parameter or a fragment of its own. */
  lemma MessageAddsNoDelimiters(email: string, listingName: string, message: string)
    ensures var href := MailtoHref(email, listingName, message);
      var prefix := "mailto:" + email + SubjectLead + listingName + BodyLead;
      var tail := href[|prefix|..];
      && href == prefix + tail
      && '&' !in tail && '=' !in tail && '#' !in tail && '?' !in tail
      && PercentDecode(tail) == Some(Utf8(message))
  {
    EncodedHasNoDelimiters(message);
    EncodeDecodeRoundTrip(message);
    var prefix := "mailto:" + email + SubjectLead + listingName + BodyLead;
    assert MailtoHref(email, listingName, message)[|prefix|..] == EncodeUriComponent(message);
  }

  /** The link around a `#` inside the listing name. */
  lemma HrefAtHash(email: string, before: string, after: string, message: string)
    ensures MailtoHref(email, before + "#" + after, message) ==
      ("mailto:" + email + SubjectLead + before) + "#" + (after + BodyLead + EncodeUriComponent(message))
  {
  }

  /** The subject is not encoded: a `#` in the listing name starts the link's fragment
      inside the subject, so the part a mail client reads as the address and query ends
      before the body parameter. */
  lemma HashInNameCutsLink(email: string, before: string, after: string, message: string)
    requires '#' !in email && '#' !in before
    ensures var href := MailtoHref(email, before + "#" + after, message);
      var kept := "mailto:" + email + SubjectLead + before;
      && Split(href, "#")[0] == kept
      && |kept| < |href| - |BodyLead + EncodeUriComponent(message)|
  {
    var kept := "mailto:" + email + SubjectLead + before;
    var rest := after + BodyLead + EncodeUriComponent(message);
    LeadsHaveNoDelimiters();
    assert '#' !in kept;
    HrefAtHash(email, before, after, message);
    SplitFirstPiece(kept, '#', rest);
  }

  /** The API's error body is still a truthy object: once LandlordFetched stores it the
      panel draws its link, and that link is addressed to `undefined`. */
  lemma ErrorBodyAddressesUndefined(p: ContactPanel, listingName: string)
    requires p.landlord == Some(Landlord(None, None, None))
    ensures p.Href(listingName).Some?
    ensures p.Href(listingName).value[..17] == "mailto:undefined?"
  {
  }
}
