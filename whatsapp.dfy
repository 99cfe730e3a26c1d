// `sendWhatsAppNotification`: the order message sent to the shop's WhatsApp
// number, built line by line, and the `wa.me` link that carries it. Opening
// the link (`window.open`) is not modelled; the method returns the link.

module WhatsApp {
  import opened Optional
  import opened Domain
  import opened JsText
  import opened UriEncoding
  import opened Collections
  import Cart

  /** The shop's number (`ADMIN_PHONE`). */
  const AdminPhone := "656966582"

  /** Everything in the link before the encoded message. */
  const UrlPrefix := "https://wa.me/" + AdminPhone + "?text="

  const Header := "\U{1F382} *Nouvelle commande - Patis't Délice*\n\n"
  const ArticlesHeading := "\n\U{1F370} *Articles commandés:*\n"

  function TypeText(t: OrderType): (r: string)
    ensures r == "Livraison" <==> t == Delivery
  {
    if t == Delivery then "Livraison" else "Retrait en magasin"
  }

  // The labels each line of the message opens with.
  const OrderNumberTag := "\U{1F4CB} *Commande N°:* "
  const ClientTag := "\U{1F464} *Client:* "
  const EmailTag := "\U{1F4E7} *Email:* "
  const PhoneTag := "\U{1F4F1} *Téléphone:* "
  const TypeTag := "\U{1F6F5} *Type:* "
  const AddressTag := "\U{1F4CD} *Adresse:* "
  const DateTag := "\U{1F4C5} *Date de retrait:* "
  const BulletTag := "• "
  const TotalTag := "\n\U{1F4B0} *Total:* "
  const NotesTag := "\n\U{1F4DD} *Notes:* "

  function OrderNumberLine(orderNumber: string): string { OrderNumberTag + orderNumber + "\n" }
  function ClientLine(name: string): string { ClientTag + name + "\n" }
  function EmailLine(email: string): string { EmailTag + email + "\n" }
  function PhoneLine(phone: string): string { PhoneTag + phone + "\n\n" }
  function TypeLine(t: OrderType): string { TypeTag + TypeText(t) + "\n" }
  function AddressLine(address: string): string { AddressTag + address + "\n" }
  function DateLine(date: string): string { DateTag + date + "\n" }
  function TotalLine(total: int): string { TotalTag + FormatFixed2(total) + "€\n" }
  function NotesLine(notes: string): string { NotesTag + notes + "\n" }

  /** One article line: name, quantity and the line's amount. */
  function BulletLine(item: LineItem): string {
    BulletTag + item.product.name + " x" + IntToString(item.quantity) + " - " + FormatFixed2(LineTotal(item)) + "€\n"
  }

  /** The header, then the order number, name, email and phone lines. */
  function IdentityPieces(d: OrderData, orderNumber: string): seq<string> {
    [Header, OrderNumberLine(orderNumber), ClientLine(d.name), EmailLine(d.email), PhoneLine(d.phone)]
  }

  /** The address goes in only for a delivery with a non-empty address. */
  predicate ShowsAddress(d: OrderData) {
    d.orderType == Delivery && d.address.Some? && d.address.value != ""
  }

  /** The address line, present only for a delivery with a non-empty address. */
  function AddressBlock(d: OrderData): seq<string> {
    if ShowsAddress(d) then [AddressLine(d.address.value)] else []
  }

  /** The pickup-date line, present whenever a date is set. */
  function DateBlock(d: OrderData, formatDate: DateFormat): seq<string> {
    match d.pickupDate
    case Some(p) => [DateLine(formatDate(p))]
    case None => []
  }

  /** The type line, the address line and the pickup-date line. */
  function DeliveryPieces(d: OrderData, formatDate: DateFormat): seq<string> {
    [TypeLine(d.orderType)] + AddressBlock(d) + DateBlock(d, formatDate)
  }

  function NotesPieces(notes: string): seq<string> {
    if notes == "" then [] else [NotesLine(notes)]
  }

  /** The message's pieces in the order they are appended. */
  function Pieces(d: OrderData, items: seq<LineItem>, orderNumber: string, formatDate: DateFormat): seq<string> {
    IdentityPieces(d, orderNumber) + DeliveryPieces(d, formatDate) + [ArticlesHeading]
    + MapSeq(items, BulletLine) + [TotalLine(Cart.Total(items))] + NotesPieces(d.notes)
  }

  /** The pieces joined, as successive `+=` build them. */
  function Concat(ps: seq<string>): string {
    if ps == [] then "" else Concat(ps[..|ps| - 1]) + ps[|ps| - 1]
  }

  function Message(d: OrderData, items: seq<LineItem>, orderNumber: string, formatDate: DateFormat): string {
    Concat(Pieces(d, items, orderNumber, formatDate))
  }

  /** `https://wa.me/${ADMIN_PHONE}?text=${encodeURIComponent(message)}`. */
  function WhatsAppUrl(message: string): string {
    UrlPrefix + EncodeUriComponent(message)
  }

  /**
   * `sendWhatsAppNotification(orderData, cartItems, orderNumber)`: builds the
   * message and returns the link it opens.
   */
  method SendWhatsAppNotification(d: OrderData, items: seq<LineItem>, orderNumber: string, formatDate: DateFormat)
    returns (message: string, url: string)
    ensures message == Message(d, items, orderNumber, formatDate)
    ensures url == WhatsAppUrl(message)
  {
    var total := Cart.Total(items);
    message := Header;
    message := message + OrderNumberLine(orderNumber);
    message := message + ClientLine(d.name);
    message := message + EmailLine(d.email);
    message := message + PhoneLine(d.phone);
    IdentityConcat(d, orderNumber);
    var delivery := DeliveryLines(d, formatDate);
    message := message + delivery;
    message := message + ArticlesHeading;
    var articles := ArticleLines(items);
    message := message + articles;
    message := message + TotalLine(total);
    if d.notes != "" {
      message := message + NotesLine(d.notes);
      ConcatOne(NotesLine(d.notes));
    }
    MessageParts(d, items, orderNumber, formatDate);
    url := UrlPrefix + EncodeUriComponent(message);
  }

  /** The type line, then the address and pickup-date lines when they apply. */
  method DeliveryLines(d: OrderData, formatDate: DateFormat) returns (lines: string)
    ensures lines == Concat(DeliveryPieces(d, formatDate))
  {
    lines := TypeLine(d.orderType);
    if d.orderType == Delivery && d.address.Some? && d.address.value != "" {
      lines := lines + AddressLine(d.address.value);
      ConcatOne(AddressLine(d.address.value));
    }
    assert lines == TypeLine(d.orderType) + Concat(AddressBlock(d));
    if d.pickupDate.Some? {
      lines := lines + DateLine(formatDate(d.pickupDate.value));
      ConcatOne(DateLine(formatDate(d.pickupDate.value)));
    }
    DeliveryConcat(d, formatDate);
  }

  /** `cartItems.forEach(...)`: one bullet line per item, in order. */
  method ArticleLines(items: seq<LineItem>) returns (lines: string)
    ensures lines == Concat(MapSeq(items, BulletLine))
  {
    lines := "";
    var i := 0;
    while i < |items|
      invariant 0 <= i <= |items|
      invariant lines == Concat(MapSeq(items[..i], BulletLine))
    {
      lines := lines + BulletLine(items[i]);
      BulletsSnoc(items, i);
      i := i + 1;
    }
    assert items[..i] == items;
  }

  // ------------------------------------------------------------ joining pieces

  lemma ConcatSnoc(ps: seq<string>, p: string)
    ensures Concat(ps + [p]) == Concat(ps) + p
  {
    assert (ps + [p])[..|ps|] == ps;
  }

  lemma {:induction false} ConcatAppend(a: seq<string>, b: seq<string>)
    ensures Concat(a + b) == Concat(a) + Concat(b)
    decreases |b|
  {
    if b == [] {
      assert a + b == a;
    } else {
      var b' := b[..|b| - 1];
      assert a + b == (a + b') + [b[|b| - 1]];
      ConcatAppend(a, b');
      ConcatSnoc(a + b', b[|b| - 1]);
      ConcatSnoc(b', b[|b| - 1]);
      assert b' + [b[|b| - 1]] == b;
    }
  }

  lemma IdentityConcat(d: OrderData, orderNumber: string)
    ensures var ps := IdentityPieces(d, orderNumber);
      Concat(ps) == ps[0] + ps[1] + ps[2] + ps[3] + ps[4]
  {
    var ps := IdentityPieces(d, orderNumber);
    ConcatSnoc([], ps[0]);
    ConcatSnoc(ps[..1], ps[1]);
    ConcatSnoc(ps[..2], ps[2]);
    ConcatSnoc(ps[..3], ps[3]);
    ConcatSnoc(ps[..4], ps[4]);
    assert [] + [ps[0]] == ps[..1];
    assert ps[..1] + [ps[1]] == ps[..2];
    assert ps[..2] + [ps[2]] == ps[..3];
    assert ps[..3] + [ps[3]] == ps[..4];
    assert ps[..4] + [ps[4]] == ps;
  }

  lemma DeliveryConcat(d: OrderData, formatDate: DateFormat)
    ensures Concat(DeliveryPieces(d, formatDate))
         == TypeLine(d.orderType) + Concat(AddressBlock(d)) + Concat(DateBlock(d, formatDate))
  {
    var t := TypeLine(d.orderType);
    ConcatOne(t);
    ConcatAppend([t], AddressBlock(d));
    ConcatAppend([t] + AddressBlock(d), DateBlock(d, formatDate));
  }

  lemma ConcatOne(p: string)
    ensures Concat([p]) == p
  {
    assert [p][..0] == [];
  }

  lemma BulletsSnoc(items: seq<LineItem>, i: nat)
    requires i < |items|
    ensures Concat(MapSeq(items[..i + 1], BulletLine)) == Concat(MapSeq(items[..i], BulletLine)) + BulletLine(items[i])
  {
    MapSeqSnoc(items, BulletLine, i);
    ConcatSnoc(MapSeq(items[..i], BulletLine), BulletLine(items[i]));
  }

  lemma ConcatOfParts(a: seq<string>, b: seq<string>, x: string, c: seq<string>, y: string, e: seq<string>)
    ensures Concat(a + b + [x] + c + [y] + e) == Concat(a) + Concat(b) + x + Concat(c) + y + Concat(e)
  {
    ConcatAppend(a, b);
    ConcatSnoc(a + b, x);
    ConcatAppend(a + b + [x], c);
    ConcatSnoc(a + b + [x] + c, y);
    ConcatAppend(a + b + [x] + c + [y], e);
  }

  /** The message is its identity block, its delivery block, the article lines, the total and the notes, in that order. */
  lemma MessageParts(d: OrderData, items: seq<LineItem>, orderNumber: string, formatDate: DateFormat)
    ensures Message(d, items, orderNumber, formatDate)
         == Concat(IdentityPieces(d, orderNumber)) + Concat(DeliveryPieces(d, formatDate)) + ArticlesHeading
            + Concat(MapSeq(items, BulletLine)) + TotalLine(Cart.Total(items)) + Concat(NotesPieces(d.notes))
  {
    ConcatOfParts(IdentityPieces(d, orderNumber), DeliveryPieces(d, formatDate), ArticlesHeading,
                  MapSeq(items, BulletLine), TotalLine(Cart.Total(items)), NotesPieces(d.notes));
  }

  // ------------------------------------------------------------ what the message says

  predicate StartsWith(p: string, tag: string) {
    |tag| <= |p| && p[..|tag|] == tag
  }

  /** The test "this piece is the line labelled `tag`". */
  function Tagged(tag: string): string -> bool {
    p => StartsWith(p, tag)
  }

  /** The first two characters of the labels the message's lines are told apart by. */
  lemma TagLeads()
    ensures |AddressTag| >= 2 && AddressTag[0] == '\U{1F4CD}'
    ensures |DateTag| >= 2 && DateTag[0] == '\U{1F4C5}'
    ensures |BulletTag| >= 2 && BulletTag[0] == '•'
    ensures |NotesTag| >= 2 && NotesTag[0] == '\n' && NotesTag[1] == '\U{1F4DD}'
    ensures |TypeTag| >= 2 && TypeTag[0] == '\U{1F6F5}'
    ensures |TotalTag| >= 2 && TotalTag[0] == '\n' && TotalTag[1] == '\U{1F4B0}'
  {
  }

  /** A piece whose first two characters differ from the label's is not that line. */
  lemma NotTagged(p: string, tag: string)
    requires 2 <= |tag| && 2 <= |p| && (p[0] != tag[0] || p[1] != tag[1])
    ensures !Tagged(tag)(p)
  {
  }

  lemma TaggedLine(tag: string, x: string, y: string)
    ensures Tagged(tag)(tag + x + y)
  {
    assert (tag + x + y)[..|tag|] == tag;
  }

  lemma FilterOne(x: string, t: string -> bool)
    ensures Filter([x], t) == if t(x) then [x] else []
  {
    assert [x][1..] == [];
  }

  /** The lines with a given label, block by block. */
  lemma FilterPieces(d: OrderData, items: seq<LineItem>, orderNumber: string, formatDate: DateFormat, tag: string)
    ensures Filter(Pieces(d, items, orderNumber, formatDate), Tagged(tag))
         == Filter(IdentityPieces(d, orderNumber), Tagged(tag)) + Filter(DeliveryPieces(d, formatDate), Tagged(tag))
            + Filter([ArticlesHeading], Tagged(tag)) + Filter(MapSeq(items, BulletLine), Tagged(tag))
            + Filter([TotalLine(Cart.Total(items))], Tagged(tag)) + Filter(NotesPieces(d.notes), Tagged(tag))
  {
    var t := Tagged(tag);
    var a, b, c := IdentityPieces(d, orderNumber), DeliveryPieces(d, formatDate), MapSeq(items, BulletLine);
    var x, y, e := ArticlesHeading, TotalLine(Cart.Total(items)), NotesPieces(d.notes);
    FilterConcat(a, b, t);
    FilterConcat(a + b, [x], t);
    FilterConcat(a + b + [x], c, t);
    FilterConcat(a + b + [x] + c, [y], t);
    FilterConcat(a + b + [x] + c + [y], e, t);
  }

  /** No line of the identity block carries a label that opens with another character. */
  lemma IdentityUntagged(d: OrderData, orderNumber: string, tag: string)
    ensures 2 <= |tag| && tag[0] !in {'\U{1F382}', '\U{1F4CB}', '\U{1F464}', '\U{1F4E7}', '\U{1F4F1}'}
      ==> Filter(IdentityPieces(d, orderNumber), Tagged(tag)) == []
  {
    if 2 <= |tag| && tag[0] !in {'\U{1F382}', '\U{1F4CB}', '\U{1F464}', '\U{1F4E7}', '\U{1F4F1}'} {
      var ps := IdentityPieces(d, orderNumber);
      forall i | 0 <= i < |ps|
        ensures !Tagged(tag)(ps[i])
      {
        NotTagged(ps[i], tag);
      }
      FilterDropsAll(ps, Tagged(tag));
    }
  }

  lemma BulletsUntagged(items: seq<LineItem>, tag: string)
    ensures 2 <= |tag| && tag[0] != '•'
      ==> Filter(MapSeq(items, BulletLine), Tagged(tag)) == []
  {
    if 2 <= |tag| && tag[0] != '•' {
      var ps := MapSeq(items, BulletLine);
      forall i | 0 <= i < |ps|
        ensures !Tagged(tag)(ps[i])
      {
        NotTagged(BulletLine(items[i]), tag);
      }
      FilterDropsAll(ps, Tagged(tag));
    }
  }

  lemma HeadingUntagged(tag: string)
    ensures 2 <= |tag| && (tag[0] != '\n' || tag[1] != '\U{1F370}')
      ==> Filter([ArticlesHeading], Tagged(tag)) == []
  {
    if 2 <= |tag| && (tag[0] != '\n' || tag[1] != '\U{1F370}') {
      FilterOne(ArticlesHeading, Tagged(tag));
      NotTagged(ArticlesHeading, tag);
    }
  }

  lemma TotalUntagged(total: int, tag: string)
    ensures 2 <= |tag| && (tag[0] != '\n' || tag[1] != '\U{1F4B0}')
      ==> Filter([TotalLine(total)], Tagged(tag)) == []
  {
    if 2 <= |tag| && (tag[0] != '\n' || tag[1] != '\U{1F4B0}') {
      FilterOne(TotalLine(total), Tagged(tag));
      NotTagged(TotalLine(total), tag);
    }
  }

  /** With a label other than the notes', nothing from the notes block. */
  lemma NotesUntagged(notes: string, tag: string)
    ensures 2 <= |tag| && (tag[0] != '\n' || tag[1] != '\U{1F4DD}')
      ==> Filter(NotesPieces(notes), Tagged(tag)) == []
  {
    if 2 <= |tag| && (tag[0] != '\n' || tag[1] != '\U{1F4DD}') {
      if notes != "" {
        FilterOne(NotesLine(notes), Tagged(tag));
        NotTagged(NotesLine(notes), tag);
      }
    }
  }

  lemma NotesTagged(notes: string)
    ensures Filter(NotesPieces(notes), Tagged(NotesTag)) == NotesPieces(notes)
  {
    if notes != "" {
      FilterOne(NotesLine(notes), Tagged(NotesTag));
      TaggedLine(NotesTag, notes, "\n");
    }
  }

  lemma TypeTagged(t: OrderType)
    ensures Filter([TypeLine(t)], Tagged(TypeTag)) == [TypeLine(t)]
  {
    FilterOne(TypeLine(t), Tagged(TypeTag));
    TaggedLine(TypeTag, TypeText(t), "\n");
  }

  lemma TotalTagged(total: int)
    ensures Filter([TotalLine(total)], Tagged(TotalTag)) == [TotalLine(total)]
  {
    FilterOne(TotalLine(total), Tagged(TotalTag));
    TaggedLine(TotalTag, FormatFixed2(total), "€\n");
  }

  lemma TypeUntagged(t: OrderType, tag: string)
    ensures 2 <= |tag| && tag[0] != '\U{1F6F5}'
      ==> Filter([TypeLine(t)], Tagged(tag)) == []
  {
    if 2 <= |tag| && tag[0] != '\U{1F6F5}' {
      FilterOne(TypeLine(t), Tagged(tag));
      NotTagged(TypeLine(t), tag);
    }
  }

  lemma AddressUntagged(d: OrderData, tag: string)
    ensures 2 <= |tag| && tag[0] != '\U{1F4CD}'
      ==> Filter(AddressBlock(d), Tagged(tag)) == []
  {
    if 2 <= |tag| && tag[0] != '\U{1F4CD}' {
      if ShowsAddress(d) {
        FilterOne(AddressLine(d.address.value), Tagged(tag));
        NotTagged(AddressLine(d.address.value), tag);
      }
    }
  }

  lemma AddressTagged(d: OrderData)
    ensures Filter(AddressBlock(d), Tagged(AddressTag)) == AddressBlock(d)
  {
    if ShowsAddress(d) {
      FilterOne(AddressLine(d.address.value), Tagged(AddressTag));
      TaggedLine(AddressTag, d.address.value, "\n");
    }
  }

  lemma DateUntagged(d: OrderData, formatDate: DateFormat, tag: string)
    ensures 2 <= |tag| && tag[0] != '\U{1F4C5}'
      ==> Filter(DateBlock(d, formatDate), Tagged(tag)) == []
  {
    if 2 <= |tag| && tag[0] != '\U{1F4C5}' {
      if d.pickupDate.Some? {
        var line := DateLine(formatDate(d.pickupDate.value));
        FilterOne(line, Tagged(tag));
        NotTagged(line, tag);
      }
    }
  }

  lemma DateTagged(d: OrderData, formatDate: DateFormat)
    ensures Filter(DateBlock(d, formatDate), Tagged(DateTag)) == DateBlock(d, formatDate)
  {
    if d.pickupDate.Some? {
      var date := formatDate(d.pickupDate.value);
      FilterOne(DateLine(date), Tagged(DateTag));
      TaggedLine(DateTag, date, "\n");
    }
  }

  lemma FilterDelivery(d: OrderData, formatDate: DateFormat, t: string -> bool)
    ensures Filter(DeliveryPieces(d, formatDate), t)
         == Filter([TypeLine(d.orderType)], t) + Filter(AddressBlock(d), t) + Filter(DateBlock(d, formatDate), t)
  {
    var a, b, c := [TypeLine(d.orderType)], AddressBlock(d), DateBlock(d, formatDate);
    FilterConcat(a, b, t);
    FilterConcat(a + b, c, t);
  }

  /** The address line is there exactly for a delivery with a non-empty address, and shows that address. */
  lemma AddressLineShown(d: OrderData, items: seq<LineItem>, orderNumber: string, formatDate: DateFormat)
    ensures Filter(Pieces(d, items, orderNumber, formatDate), Tagged(AddressTag))
         == if ShowsAddress(d) then [AddressLine(d.address.value)] else []
  {
    TagLeads();
    var t := Tagged(AddressTag);
    FilterPieces(d, items, orderNumber, formatDate, AddressTag);
    IdentityUntagged(d, orderNumber, AddressTag);
    FilterDelivery(d, formatDate, t);
    TypeUntagged(d.orderType, AddressTag);
    AddressTagged(d);
    DateUntagged(d, formatDate, AddressTag);
    HeadingUntagged(AddressTag);
    BulletsUntagged(items, AddressTag);
    TotalUntagged(Cart.Total(items), AddressTag);
    NotesUntagged(d.notes, AddressTag);
  }

  /** The pickup-date line is there exactly when a date is set, and shows that date. */
  lemma DateLineShown(d: OrderData, items: seq<LineItem>, orderNumber: string, formatDate: DateFormat)
    ensures Filter(Pieces(d, items, orderNumber, formatDate), Tagged(DateTag))
         == match d.pickupDate
            case Some(p) => [DateLine(formatDate(p))]
            case None => []
  {
    TagLeads();
    var t := Tagged(DateTag);
    FilterPieces(d, items, orderNumber, formatDate, DateTag);
    IdentityUntagged(d, orderNumber, DateTag);
    FilterDelivery(d, formatDate, t);
    TypeUntagged(d.orderType, DateTag);
    AddressUntagged(d, DateTag);
    DateTagged(d, formatDate);
    HeadingUntagged(DateTag);
    BulletsUntagged(items, DateTag);
    TotalUntagged(Cart.Total(items), DateTag);
    NotesUntagged(d.notes, DateTag);
  }

  /** The notes line is there exactly when the notes are not empty, and shows them. */
  lemma NotesLineShown(d: OrderData, items: seq<LineItem>, orderNumber: string, formatDate: DateFormat)
    ensures Filter(Pieces(d, items, orderNumber, formatDate), Tagged(NotesTag))
         == if d.notes == "" then [] else [NotesLine(d.notes)]
  {
    TagLeads();
    var t := Tagged(NotesTag);
    FilterPieces(d, items, orderNumber, formatDate, NotesTag);
    IdentityUntagged(d, orderNumber, NotesTag);
    FilterDelivery(d, formatDate, t);
    TypeUntagged(d.orderType, NotesTag);
    AddressUntagged(d, NotesTag);
    DateUntagged(d, formatDate, NotesTag);
    HeadingUntagged(NotesTag);
    BulletsUntagged(items, NotesTag);
    TotalUntagged(Cart.Total(items), NotesTag);
    NotesTagged(d.notes);
  }

  lemma BulletsTagged(items: seq<LineItem>)
    ensures Filter(MapSeq(items, BulletLine), Tagged(BulletTag)) == MapSeq(items, BulletLine)
  {
    var ps := MapSeq(items, BulletLine);
    forall i | 0 <= i < |ps|
      ensures Tagged(BulletTag)(ps[i])
    {
      var item := items[i];
      TaggedLine(BulletTag, item.product.name, " x" + IntToString(item.quantity) + " - " + FormatFixed2(LineTotal(item)) + "€\n");
    }
    FilterKeepsAll(ps, Tagged(BulletTag));
  }

  /** The article lines are one per cart item, in the cart's order, and nothing else reads as one. */
  lemma ArticleLinesInOrder(d: OrderData, items: seq<LineItem>, orderNumber: string, formatDate: DateFormat)
    ensures Filter(Pieces(d, items, orderNumber, formatDate), Tagged(BulletTag)) == MapSeq(items, BulletLine)
  {
    TagLeads();
    var t := Tagged(BulletTag);
    FilterPieces(d, items, orderNumber, formatDate, BulletTag);
    IdentityUntagged(d, orderNumber, BulletTag);
    FilterDelivery(d, formatDate, t);
    TypeUntagged(d.orderType, BulletTag);
    AddressUntagged(d, BulletTag);
    DateUntagged(d, formatDate, BulletTag);
    HeadingUntagged(BulletTag);
    BulletsTagged(items);
    TotalUntagged(Cart.Total(items), BulletTag);
    NotesUntagged(d.notes, BulletTag);
  }

  /** The message opens with the header, then the order number, name, email and phone lines. */
  lemma MessageOpensWithOrder(d: OrderData, items: seq<LineItem>, orderNumber: string, formatDate: DateFormat)
    ensures var m := Message(d, items, orderNumber, formatDate);
      var opening := Header + OrderNumberLine(orderNumber) + ClientLine(d.name) + EmailLine(d.email) + PhoneLine(d.phone);
      |opening| <= |m| && m[..|opening|] == opening
  {
    ConcatPrefix(IdentityPieces(d, orderNumber), DeliveryPieces(d, formatDate), ArticlesHeading,
                 MapSeq(items, BulletLine), TotalLine(Cart.Total(items)), NotesPieces(d.notes));
    IdentityConcat(d, orderNumber);
  }

  lemma ConcatPrefix(a: seq<string>, b: seq<string>, x: string, c: seq<string>, y: string, e: seq<string>)
    ensures var whole := Concat(a + b + [x] + c + [y] + e);
      |Concat(a)| <= |whole| && whole[..|Concat(a)|] == Concat(a)
  {
    var rest := b + [x] + c + [y] + e;
    assert a + b + [x] + c + [y] + e == a + rest;
    ConcatAppend(a, rest);
    assert (Concat(a) + Concat(rest))[..|Concat(a)|] == Concat(a);
  }

  /**
   * The link is the `wa.me` address of the shop's number with the whole
   * message as its `text` value: what follows `?text=` decodes back to the
   * message, and holds no character that could end the value or the link.
   */
  lemma LinkCarriesMessage(message: string)
    ensures var url := WhatsAppUrl(message);
      |UrlPrefix| <= |url| && url[..|UrlPrefix|] == UrlPrefix
      && DecodeUriComponent(url[|UrlPrefix|..]) == Some(message)
      && forall i :: |UrlPrefix| <= i < |url| ==> IsQuerySafe(url[i])
  {
    var e := EncodeUriComponent(message);
    var url := WhatsAppUrl(message);
    assert url[..|UrlPrefix|] == UrlPrefix;
    assert url[|UrlPrefix|..] == e;
    DecodeEncode(message);
    EncodedIsQuerySafe(message);
    forall i | |UrlPrefix| <= i < |url|
      ensures IsQuerySafe(url[i])
    {
      assert url[i] == e[i - |UrlPrefix|];
    }
  }

  /** Exactly one type line, reading "Livraison" for a delivery and "Retrait en magasin" otherwise. */
  lemma TypeLineShown(d: OrderData, items: seq<LineItem>, orderNumber: string, formatDate: DateFormat)
    ensures Filter(Pieces(d, items, orderNumber, formatDate), Tagged(TypeTag)) == [TypeLine(d.orderType)]
  {
    TagLeads();
    var t := Tagged(TypeTag);
    FilterPieces(d, items, orderNumber, formatDate, TypeTag);
    IdentityUntagged(d, orderNumber, TypeTag);
    FilterDelivery(d, formatDate, t);
    TypeTagged(d.orderType);
    AddressUntagged(d, TypeTag);
    DateUntagged(d, formatDate, TypeTag);
    HeadingUntagged(TypeTag);
    BulletsUntagged(items, TypeTag);
    TotalUntagged(Cart.Total(items), TypeTag);
    NotesUntagged(d.notes, TypeTag);
  }

  /** Exactly one total line, carrying the sum of price times quantity over the items. */
  lemma TotalLineShown(d: OrderData, items: seq<LineItem>, orderNumber: string, formatDate: DateFormat)
    ensures Filter(Pieces(d, items, orderNumber, formatDate), Tagged(TotalTag)) == [TotalLine(Cart.Total(items))]
  {
    TagLeads();
    var t := Tagged(TotalTag);
    FilterPieces(d, items, orderNumber, formatDate, TotalTag);
    IdentityUntagged(d, orderNumber, TotalTag);
    FilterDelivery(d, formatDate, t);
    TypeUntagged(d.orderType, TotalTag);
    AddressUntagged(d, TotalTag);
    DateUntagged(d, formatDate, TotalTag);
    HeadingUntagged(TotalTag);
    BulletsUntagged(items, TotalTag);
    TotalTagged(Cart.Total(items));
    NotesUntagged(d.notes, TotalTag);
  }
}
