/** The protobuf messages that the client reads and writes, as values. An optional message field is an
    `Option`; a nil entry of a repeated field is the `Nil...` constructor, because the generated getters
    accept a nil receiver. */
module Proto {

  datatype Option<+T> = None | Some(value: T)

  datatype Result<+T> = Ok(value: T) | Err(error: Error)

  datatype Error =
    | NoCommandProvided
    | NoCommandPages
    | UnknownCommand(typeUrl: string)
    | BadNotification
    | BadRejection
    | HandlerFailed(message: string, rejected: bool)

  type Byte = x: int | 0 <= x < 256

  type Uint32 = x: int | 0 <= x < 0x1_0000_0000

  /** Go's uint32 addition: it wraps. */
  function Add32(a: Uint32, n: nat): Uint32 {
    (a + n) % 0x1_0000_0000
  }

  lemma Add32Assoc(a: Uint32, m: nat, n: nat)
    ensures Add32(Add32(a, m), n) == Add32(a, m + n)
  {
  }

  lemma ConcatAssoc<T>(a: seq<T>, b: seq<T>, c: seq<T>)
    ensures a + b + c == a + (b + c)
  {
  }

  const TYPE_URL_PREFIX: string := "type.googleapis.com/"

  const NOTIFICATION: string := "angzarr_client.proto.angzarr.Notification"

  const REJECTION: string := "angzarr_client.proto.angzarr.RejectionNotification"

  /** A google.protobuf.Any: a type URL and the packed bytes. */
  datatype TypedAny = TypedAny(typeUrl: string, value: seq<Byte>)

  datatype Cover = Cover(domain: string, root: Option<seq<Byte>>, correlationId: string, edition: Option<string>)

  datatype SequenceType = NoSequence | Sequence(sequence: Uint32) | AngzarrDeferred(source: Cover, sourceSeq: Uint32)

  datatype PageHeader = PageHeader(sequenceType: SequenceType) {
    function GetSequence(): Uint32 {
      if sequenceType.Sequence? then sequenceType.sequence else 0
    }
  }

  datatype EventPayload = NoPayload | Event(event: Option<TypedAny>) | External(reference: string)

  datatype EventPage =
    | NilPage
    | EventPage(header: Option<PageHeader>, payload: EventPayload, createdAt: Option<int>)
  {
    function GetEvent(): Option<TypedAny> {
      if EventPage? && payload.Event? then payload.event else None
    }

    function GetHeader(): Option<PageHeader> {
      if EventPage? then header else None
    }
  }

  /** A page with an event of the named type. */
  function TypedPage(header: Option<PageHeader>, fullName: string, value: seq<Byte>, createdAt: Option<int>): EventPage {
    EventPage(header, Event(Some(TypedAny(TYPE_URL_PREFIX + fullName, value))), createdAt)
  }

  datatype Snapshot = Snapshot(sequence: Uint32, state: TypedAny)

  datatype EventBook =
    EventBook(cover: Option<Cover>, pages: seq<EventPage>, snapshot: Option<Snapshot>, nextSequence: Uint32)

  const EMPTY_BOOK := EventBook(None, [], None, 0)

  datatype CommandPage = NilCommandPage | CommandPage(header: Option<PageHeader>, command: Option<TypedAny>) {
    function GetCommand(): Option<TypedAny> {
      if CommandPage? then command else None
    }
  }

  datatype CommandBook = CommandBook(cover: Option<Cover>, pages: seq<CommandPage>)

  datatype Notification = Notification(payload: Option<TypedAny>, metadata: string)

  datatype Rejection = Rejection(rejectedCommand: Option<CommandBook>, reason: string)

  datatype BusinessResponse =
    | Events(book: EventBook)
    | Revocation(emitSystemRevocation: bool, reason: string)

  /** A `*pb.EventBook`: the aggregate updates the book behind this pointer in place. */
  class EventBookRef {
    var book: EventBook

    constructor (book: EventBook)
      ensures this.book == book
    {
      this.book := book;
    }
  }

  ghost function BookOf(ref: EventBookRef?): EventBook
    reads ref
  {
    if ref == null then EMPTY_BOOK else ref.book
  }
}
