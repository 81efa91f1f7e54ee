/**
 * Turning the chosen result of an inline bot into a message
 * (inline_bots/inline_bot_send_data.cpp): the error that forbids sending it,
 * the fields of the message sent for the common kinds, the flags of that
 * message, the message appended to the history, and the description shown
 * in the results list.
 *
 * Foreign inputs are parameters: the restriction lookups are a map from
 * restriction to the message RestrictionError would return, entities arrive
 * already converted, phone formatting is a function argument, and locations,
 * photos, games and reply markup are opaque values.
 */
module InlineBotSendData {
  import opened Wrappers
  import Priority

  // ---------------------------------------------------------------- inputs

  /** The chat restrictions looked up before sending. */
  datatype ChatRestriction = SendMessages | SendMedia | SendStickers | SendGifs | SendGames

  /** The restrictions in force in the chat, each with the error text RestrictionError gives for it. */
  type Restrictions = map<ChatRestriction, string>

  function RestrictionError(rs: Restrictions, r: ChatRestriction): Option<string> {
    if r in rs then Some(rs[r]) else None
  }

  /** What the file result's document is: DocumentData::sticker(), isAnimation(), isVideoMessage(). */
  datatype Document = Document(isSticker: bool, isAnimation: bool, isVideoMessage: bool)

  datatype Location = Location(latitude: real, longitude: real, accessHash: int)

  /** A text entity as sent (the output of Api::EntitiesToMTP). */
  datatype Entity = Entity(kind: nat, offset: nat, length: nat)

  /** Serialized reply markup, passed through untouched. */
  datatype ReplyMarkup = ReplyMarkup(serialized: seq<bv8>)

  /** The inline result kinds and the data each carries. */
  datatype SendData =
    | SendText(message: string, entities: seq<Entity>)
    | SendGeo(location: Location, period: Option<int>, heading: Option<int>, proximityNotificationRadius: Option<int>)
    | SendVenue(location: Location, title: string, address: string, provider: string, venueId: string)
    | SendContact(firstName: string, lastName: string, phoneNumber: string)
    | SendInvoice(invoiceDescription: string)
    | SendPhoto(photo: int, message: string, entities: seq<Entity>)
    | SendFile(document: Document, message: string, entities: seq<Entity>)
    | SendGame(game: int)

  /** The kinds built on SendDataCommon, which are sent as a full server-shaped message. */
  predicate IsCommon(d: SendData) {
    d.SendText? || d.SendGeo? || d.SendVenue? || d.SendContact? || d.SendInvoice?
  }

  // ---------------------------------------------------------------- send errors

  /** SendFile's choice: the media restriction, else the sticker one for stickers, else the GIF one for animations that are not video messages. */
  function FileErrorOnSend(errorMedia: Option<string>, errorStickers: Option<string>, errorGifs: Option<string>, doc: Document): (error: string)
    ensures errorMedia.Some? ==> error == errorMedia.value
    ensures error != "" ==>
      || errorMedia == Some(error)
      || (doc.isSticker && errorStickers == Some(error))
      || (doc.isAnimation && !doc.isVideoMessage && errorGifs == Some(error))
    ensures (&& errorMedia.None?
             && (errorStickers.None? || !doc.isSticker)
             && (errorGifs.None? || !doc.isAnimation || doc.isVideoMessage)) ==> error == ""
  {
    if errorMedia.Some? then errorMedia.value
    else if errorStickers.Some? && doc.isSticker then errorStickers.value
    else if errorGifs.Some? && doc.isAnimation && !doc.isVideoMessage then errorGifs.value
    else ""
  }

  /** The error shown instead of sending, empty when sending is allowed. */
  function ErrorOnSend(d: SendData, rs: Restrictions): (error: string)
    ensures (forall r | r in Applicable(d) :: r !in rs) ==> error == ""
    ensures error != "" ==> exists r | r in Applicable(d) :: r in rs && rs[r] == error
  {
    match d
    case SendPhoto(_, _, _) => RestrictionError(rs, SendMedia).GetOr("")
    case SendFile(doc, _, _) =>
      FileErrorOnSend(
        RestrictionError(rs, SendMedia),
        RestrictionError(rs, SendStickers),
        RestrictionError(rs, SendGifs),
        doc)
    case SendGame(_) => RestrictionError(rs, SendGames).GetOr("")
    case _ => RestrictionError(rs, SendMessages).GetOr("")
  }

  /** The restrictions that apply to a result, highest precedence first. */
  function Applicable(d: SendData): seq<ChatRestriction> {
    match d
    case SendPhoto(_, _, _) => [SendMedia]
    case SendFile(doc, _, _) =>
      [SendMedia]
        + (if doc.isSticker then [SendStickers] else [])
        + (if doc.isAnimation && !doc.isVideoMessage then [SendGifs] else [])
    case SendGame(_) => [SendGames]
    case _ => [SendMessages]
  }

  function Lookups(order: seq<ChatRestriction>, rs: Restrictions): (errors: seq<Option<string>>)
    ensures |errors| == |order|
    ensures forall i | 0 <= i < |order| :: errors[i] == RestrictionError(rs, order[i])
  {
    if order == [] then [] else [RestrictionError(rs, order[0])] + Lookups(order[1..], rs)
  }

  /** The error is that of the first applicable restriction in force, or empty. */
  lemma ErrorOnSendIsFirstApplicable(d: SendData, rs: Restrictions)
    ensures ErrorOnSend(d, rs) == Priority.FirstSome(Lookups(Applicable(d), rs)).GetOr("")
  {
    var order := Applicable(d);
    var errors := Lookups(order, rs);
    var k := FirstInForce(order, rs);
    ErrorOnSendIsFirstInForce(d, rs, k);
    if k < |order| {
      Priority.FirstSomeAt(errors, k);
    } else {
      assert Priority.FirstSome(errors).None?;
    }
  }

  /** Given the position of the first applicable restriction in force, the error is its text. */
  lemma ErrorOnSendIsFirstInForce(d: SendData, rs: Restrictions, k: nat)
    requires k <= |Applicable(d)|
    requires forall j | 0 <= j < k :: Applicable(d)[j] !in rs
    requires k < |Applicable(d)| ==> Applicable(d)[k] in rs
    ensures ErrorOnSend(d, rs) == if k < |Applicable(d)| then rs[Applicable(d)[k]] else ""
  {
    match d
    case SendFile(doc, _, _) =>
      var order := Applicable(d);
      var gif := doc.isAnimation && !doc.isVideoMessage;
      assert order[0] == SendMedia;
      if 0 < k {
        assert order[0] !in rs;
        if doc.isSticker {
          assert order[1] == SendStickers;
          if 1 < k {
            assert order[1] !in rs;
            if gif { assert order[2] == SendGifs; }
          }
        } else if gif {
          assert order[1] == SendGifs;
        }
      }
    case _ =>
  }

  /** The position of the first restriction of `order` in force, |order| if none is. */
  lemma {:induction false} FirstInForce(order: seq<ChatRestriction>, rs: Restrictions) returns (k: nat)
    ensures k <= |order|
    ensures forall j | 0 <= j < k :: order[j] !in rs
    ensures k < |order| ==> order[k] in rs
  {
    if order == [] || order[0] in rs {
      k := 0;
    } else {
      var rest := FirstInForce(order[1..], rs);
      k := rest + 1;
      forall j | 0 <= j < k ensures order[j] !in rs {
        if j > 0 { assert order[j] == order[1..][j - 1]; }
      }
      if k < |order| {
        assert order[k] == order[1..][rest];
      }
    }
  }

  /** For files the media restriction beats the sticker and GIF restrictions. */
  lemma FileMediaErrorFirst(doc: Document, message: string, entities: seq<Entity>, rs: Restrictions)
    requires SendMedia in rs
    ensures ErrorOnSend(SendFile(doc, message, entities), rs) == rs[SendMedia]
  {
  }

  /** The sticker restriction is only consulted for stickers. */
  lemma FileStickerErrorOnlyForStickers(doc: Document, message: string, entities: seq<Entity>, rs: Restrictions)
    requires !doc.isSticker
    ensures ErrorOnSend(SendFile(doc, message, entities), rs) == ErrorOnSend(SendFile(doc, message, entities), rs - {SendStickers})
  {
  }

  /** The GIF restriction is only consulted for animations that are not video messages. */
  lemma FileGifErrorOnlyForAnimations(doc: Document, message: string, entities: seq<Entity>, rs: Restrictions)
    requires !doc.isAnimation || doc.isVideoMessage
    ensures ErrorOnSend(SendFile(doc, message, entities), rs) == ErrorOnSend(SendFile(doc, message, entities), rs - {SendGifs})
  {
  }

  /** A sticker's error is the sticker restriction unless media are restricted; the GIF one only when neither applies. */
  lemma FileErrorPrecedence(doc: Document, message: string, entities: seq<Entity>, rs: Restrictions)
    requires SendMedia !in rs
    ensures doc.isSticker && SendStickers in rs ==> ErrorOnSend(SendFile(doc, message, entities), rs) == rs[SendStickers]
    ensures !(doc.isSticker && SendStickers in rs) && doc.isAnimation && !doc.isVideoMessage && SendGifs in rs ==>
      ErrorOnSend(SendFile(doc, message, entities), rs) == rs[SendGifs]
  {
  }

  // ---------------------------------------------------------------- sent fields

  /** MTPDmessageMediaGeoLive flag bits (Telegram API schema). */
  const GeoLiveHeading: bv32 := 1 << 0
  const GeoLiveProximityNotificationRadius: bv32 := 1 << 1

  datatype Media =
    | MediaEmpty
    | MediaGeo(geo: Location)
    | MediaGeoLive(flags: bv32, geo: Location, heading: int, period: int, proximityNotificationRadius: int)
    | MediaVenue(geo: Location, title: string, address: string, provider: string, venueId: string, venueType: string)
    | MediaContact(phoneNumber: string, firstName: string, lastName: string, vcard: string, userId: int)
    | MediaInvoice(description: string)

  /** The parts of the message a common result fills in; the rest keep their defaults (empty). */
  datatype SentMessageFields = SentMessageFields(text: string, media: Media, entities: seq<Entity>)

  /**
   * getSentMessageFields of each common kind.  Only text results carry text
   * and entities.  A location is live exactly when it has a period; a live
   * location flags the heading and the proximity radius exactly when they are
   * present and sends 0 for an absent one.
   */
  function SentFields(d: SendData): (f: SentMessageFields)
    requires IsCommon(d)
    ensures d.SendText? ==> f.text == d.message && f.entities == d.entities && f.media == MediaEmpty
    ensures !d.SendText? ==> f.text == "" && f.entities == []
    ensures d.SendGeo? ==> (f.media.MediaGeoLive? <==> d.period.Some?)
    ensures d.SendGeo? && d.period.None? ==> f.media == MediaGeo(d.location)
    ensures d.SendGeo? && d.period.Some? ==>
      && f.media.geo == d.location
      && f.media.period == d.period.value
      && (f.media.flags & GeoLiveHeading != 0 <==> d.heading.Some?)
      && (f.media.flags & GeoLiveProximityNotificationRadius != 0 <==> d.proximityNotificationRadius.Some?)
      && f.media.flags & !(GeoLiveHeading | GeoLiveProximityNotificationRadius) == 0
      && f.media.heading == d.heading.GetOr(0)
      && f.media.proximityNotificationRadius == d.proximityNotificationRadius.GetOr(0)
    ensures d.SendVenue? ==> f.media == MediaVenue(d.location, d.title, d.address, d.provider, d.venueId, "")
    ensures d.SendContact? ==> f.media == MediaContact(d.phoneNumber, d.firstName, d.lastName, "", 0)
    ensures d.SendInvoice? ==> f.media == MediaInvoice(d.invoiceDescription)
  {
    match d
    case SendText(message, entities) => SentMessageFields(message, MediaEmpty, entities)
    case SendGeo(location, period, heading, radius) =>
      if period.Some? then
        var flags := (if heading.Some? then GeoLiveHeading else 0)
          | (if radius.Some? then GeoLiveProximityNotificationRadius else 0);
        SentMessageFields("", MediaGeoLive(flags, location, heading.GetOr(0), period.value, radius.GetOr(0)), [])
      else
        SentMessageFields("", MediaGeo(location), [])
    case SendVenue(location, title, address, provider, venueId) =>
      SentMessageFields("", MediaVenue(location, title, address, provider, venueId, ""), [])
    case SendContact(firstName, lastName, phoneNumber) =>
      SentMessageFields("", MediaContact(phoneNumber, firstName, lastName, "", 0), [])
    case SendInvoice(description) =>
      SentMessageFields("", MediaInvoice(description), [])
  }

  // ---------------------------------------------------------------- layout

  /**
   * The description shown for a result: a contact falls back to its
   * formatted phone number when the result has no description; an invoice
   * shows its own description; every other kind shows the result's.
   */
  function LayoutDescription(d: SendData, ownerDescription: string, formatPhone: string -> string): (description: string)
    ensures d.SendContact? && ownerDescription != "" ==> description == ownerDescription
    ensures d.SendContact? && ownerDescription == "" ==> description == formatPhone(d.phoneNumber)
    ensures d.SendInvoice? ==> description == d.invoiceDescription
    ensures !d.SendContact? && !d.SendInvoice? ==> description == ownerDescription
  {
    match d
    case SendContact(_, _, phoneNumber) =>
      var result := ownerDescription;
      if result == "" then formatPhone(phoneNumber) else result
    case SendInvoice(description) => description
    case _ => ownerDescription
  }

  /** A contact whose phone number formats to something never shows an empty description. */
  lemma ContactDescriptionNonEmpty(firstName: string, lastName: string, phoneNumber: string, ownerDescription: string, formatPhone: string -> string)
    requires formatPhone(phoneNumber) != ""
    ensures LayoutDescription(SendContact(firstName, lastName, phoneNumber), ownerDescription, formatPhone) != ""
  {
  }

  // ---------------------------------------------------------------- history

  /** MTPDmessage flag bits (Telegram API schema). */
  const MessageReplyTo: bv32 := 1 << 3
  const MessageEntities: bv32 := 1 << 7

  /**
   * The flags of the message a common result is sent as: the caller's flags,
   * plus f_entities when there are entities and f_reply_to when the message
   * replies to another; no other bit changes.
   */
  method SentMessageFlags(flags: bv32, entities: seq<Entity>, replyToId: int) returns (result: bv32)
    ensures result & MessageEntities != 0 <==> flags & MessageEntities != 0 || entities != []
    ensures result & MessageReplyTo != 0 <==> flags & MessageReplyTo != 0 || replyToId != 0
    ensures result & !(MessageEntities | MessageReplyTo) == flags & !(MessageEntities | MessageReplyTo)
  {
    result := flags;
    if entities != [] {
      result := result | MessageEntities;
    }
    if replyToId != 0 {
      result := result | MessageReplyTo;
    }
  }

  /** What a local (not server-shaped) message holds. */
  datatype LocalContent =
    | LocalPhoto(photo: int, message: string, entities: seq<Entity>)
    | LocalDocument(document: Document, message: string, entities: seq<Entity>)
    | LocalGame(game: int)

  datatype HistoryItem =
    | /** history->addNewMessage(MTP_message(...), clientFlags, NewMessageType::Unread) */
      NewMessage(
        flags: bv32, clientFlags: bv32, id: int, fromId: int, peerId: int, viaBotId: int,
        replyToId: int, date: int, text: string, media: Media, markup: ReplyMarkup,
        entities: seq<Entity>, views: int, forwards: int, postAuthor: string)
    | /** history->addNewLocalMessage(...) */
      NewLocalMessage(
        id: int, flags: bv32, clientFlags: bv32, viaBotId: int, replyToId: int,
        date: int, fromId: int, postAuthor: string, content: LocalContent, markup: ReplyMarkup)

  /** The messages added to one chat's history. */
  class History {
    const peerId: int
    var items: seq<HistoryItem>

    constructor (peerId: int)
      ensures this.peerId == peerId && items == []
    {
      this.peerId := peerId;
      items := [];
    }
  }

  /** The content of the local message a photo, file or game result becomes. */
  function LocalContentOf(d: SendData): (content: LocalContent)
    requires !IsCommon(d)
    ensures d.SendPhoto? <==> content.LocalPhoto?
    ensures d.SendFile? <==> content.LocalDocument?
    ensures d.SendPhoto? ==> content.photo == d.photo && content.message == d.message && content.entities == d.entities
    ensures d.SendFile? ==> content.document == d.document && content.message == d.message && content.entities == d.entities
    ensures d.SendGame? ==> content == LocalGame(d.game)
  {
    match d
    case SendPhoto(photo, message, entities) => LocalPhoto(photo, message, entities)
    case SendFile(document, message, entities) => LocalDocument(document, message, entities)
    case SendGame(game) => LocalGame(game)
  }

  /**
   * addToHistory.  Exactly `item` is appended to the history.  A common
   * result becomes a new unread message built from its sent fields, with
   * views 1, forwards 0 and the flags of SentMessageFlags; a photo, file or
   * game becomes a local message with the caller's flags as they are.
   */
  method AddToHistory(
    d: SendData, history: History, flags: bv32, clientFlags: bv32, msgId: int,
    fromId: int, date: int, viaBotId: int, replyToId: int, postAuthor: string, markup: ReplyMarkup)
    returns (ghost item: HistoryItem)
    modifies history
    ensures history.items == old(history.items) + [item]
    ensures item.NewMessage? <==> IsCommon(d)
    ensures item.id == msgId && item.fromId == fromId && item.viaBotId == viaBotId && item.replyToId == replyToId
    ensures item.date == date && item.postAuthor == postAuthor && item.markup == markup && item.clientFlags == clientFlags
    ensures IsCommon(d) ==>
      && item.peerId == history.peerId
      && item.text == SentFields(d).text && item.media == SentFields(d).media && item.entities == SentFields(d).entities
      && item.views == 1 && item.forwards == 0
    ensures IsCommon(d) ==> (item.flags & MessageEntities != 0 <==> flags & MessageEntities != 0 || SentFields(d).entities != [])
    ensures IsCommon(d) ==> (item.flags & MessageReplyTo != 0 <==> flags & MessageReplyTo != 0 || replyToId != 0)
    ensures IsCommon(d) ==> item.flags & !(MessageEntities | MessageReplyTo) == flags & !(MessageEntities | MessageReplyTo)
    ensures !IsCommon(d) ==> item.flags == flags && item.content == LocalContentOf(d)
  {
    var added: HistoryItem;
    if IsCommon(d) {
      var fields := SentFields(d);
      var messageFlags := SentMessageFlags(flags, fields.entities, replyToId);
      var views := 1;
      var forwards := 0;
      added := NewMessage(
        messageFlags, clientFlags, msgId, fromId, history.peerId, viaBotId,
        replyToId, date, fields.text, fields.media, markup,
        fields.entities, views, forwards, postAuthor);
    } else {
      added := NewLocalMessage(
        msgId, flags, clientFlags, viaBotId, replyToId, date, fromId, postAuthor, LocalContentOf(d), markup);
    }
    history.items := history.items + [added];
    item := added;
  }
}
