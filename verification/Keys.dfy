/** The strings that the client uses as keys: type names cut from type URLs, `domain/command` rejection keys,
    `domain:hex` cache keys and UUID text. Each is shown to lose nothing. */
module Keys {
  import opened Proto
  import opened Dispatch

  // ---------- strings.LastIndex ----------

  function LastIndex(s: string, c: char): (i: int)
    ensures -1 <= i < |s|
    ensures i >= 0 ==> s[i] == c
    ensures forall j :: i < j < |s| ==> s[j] != c
  {
    if s == [] then -1
    else if s[|s| - 1] == c then |s| - 1
    else LastIndex(s[..|s| - 1], c)
  }

  lemma LastIndexIs(s: string, c: char, i: int)
    requires 0 <= i < |s| && s[i] == c && c !in s[i + 1..]
    ensures LastIndex(s, c) == i
  {
    assert forall j :: i < j < |s| ==> s[j] == s[i + 1..][j - i - 1];
  }

  /** What follows the last `c`, or the whole string. */
  function After(s: string, c: char): (r: string)
    ensures c !in r
  {
    s[LastIndex(s, c) + 1..]
  }

  lemma AfterSeparator(front: string, c: char, tail: string)
    requires c !in tail
    ensures LastIndex(front + [c] + tail, c) == |front|
    ensures After(front + [c] + tail, c) == tail
  {
    var s := front + [c] + tail;
    assert s[|front| + 1..] == tail;
    LastIndexIs(s, c, |front|);
  }

  lemma SameSplit(front: string, tail: string, front': string, tail': string, c: char)
    requires c !in tail && c !in tail'
    ensures front + [c] + tail == front' + [c] + tail' <==> front == front' && tail == tail'
  {
    AfterSeparator(front, c, tail);
    AfterSeparator(front', c, tail');
    if front + [c] + tail == front' + [c] + tail' {
      assert front == (front + [c] + tail)[..|front|] == (front' + [c] + tail')[..|front'|] == front';
    }
  }

  function TypeNameFromURL(typeUrl: string): string {
    After(typeUrl, '/')
  }

  /** A type URL built from a proto full name (which has no slash) gives the name back. */
  lemma TypeNameRoundTrip(fullName: string)
    requires '/' !in fullName
    ensures TypeNameFromURL(TYPE_URL_PREFIX + fullName) == fullName
  {
    var front := "type.googleapis.com";
    assert TYPE_URL_PREFIX == front + ['/'];
    AfterSeparator(front, '/', fullName);
  }

  // ---------- Rejection keys ----------

  function RejectionKey(domain: string, command: string): string {
    domain + ['/'] + command
  }

  /** The extraction written inline in the OO aggregate and in the command router. */
  function InlineKeyParts(rejection: Rejection): (string, string) {
    match rejection.rejectedCommand
    case Some(book) =>
      if |book.pages| > 0 then
        (if book.cover.Some? then book.cover.value.domain else "",
         match book.pages[0].GetCommand()
         case Some(cmd) =>
           var idx := LastIndex(cmd.typeUrl, '/');
           if idx >= 0 then cmd.typeUrl[idx + 1..] else cmd.typeUrl
         case None => "")
      else ("", "")
    case None => ("", "")
  }

  /** The process manager's `extractRejectionKey`. */
  function ExtractRejectionKey(rejection: Rejection): (string, string) {
    match rejection.rejectedCommand
    case None => ("", "")
    case Some(book) =>
      (if book.cover.Some? then book.cover.value.domain else "",
       if |book.pages| > 0 && book.pages[0].GetCommand().Some?
       then TypeNameFromURL(book.pages[0].GetCommand().value.typeUrl) else "")
  }

  lemma SuffixHasNoSlash(rejection: Rejection)
    ensures '/' !in InlineKeyParts(rejection).1
    ensures '/' !in ExtractRejectionKey(rejection).1
  {
  }

  /** The two extractions differ on exactly one shape of rejection: a rejected command book without pages
      whose cover names a domain. */
  lemma ExtractionsAgree(rejection: Rejection)
    ensures InlineKeyParts(rejection) == ExtractRejectionKey(rejection) <==>
            !(&& rejection.rejectedCommand.Some?
              && rejection.rejectedCommand.value.pages == []
              && rejection.rejectedCommand.value.cover.Some?
              && rejection.rejectedCommand.value.cover.value.domain != "")
  {
    if rejection.rejectedCommand.Some? && |rejection.rejectedCommand.value.pages| > 0 {
      var cmd := rejection.rejectedCommand.value.pages[0].GetCommand();
      if cmd.Some? && LastIndex(cmd.value.typeUrl, '/') < 0 {
        assert TypeNameFromURL(cmd.value.typeUrl) == cmd.value.typeUrl;
      }
    }
  }

  /** A rejected command book yields its cover's domain and the full type name of its first command. */
  lemma RejectionOfCommand(rejection: Rejection, cover: Cover, fullName: string, value: seq<Byte>)
    requires rejection.rejectedCommand.Some? && rejection.rejectedCommand.value.cover == Some(cover)
    requires |rejection.rejectedCommand.value.pages| > 0 && '/' !in fullName
    requires rejection.rejectedCommand.value.pages[0].GetCommand() == Some(TypedAny(TYPE_URL_PREFIX + fullName, value))
    ensures InlineKeyParts(rejection) == (cover.domain, fullName)
    ensures ExtractRejectionKey(rejection) == (cover.domain, fullName)
  {
    TypeNameRoundTrip(fullName);
  }

  /** The other shapes: what is missing counts as empty, and a command's type URL without a slash is its name. */
  lemma RejectionWithPage(cover: Option<Cover>, page: CommandPage, rest: seq<CommandPage>, reason: string)
    ensures var rejection := Rejection(Some(CommandBook(cover, [page] + rest)), reason);
            && InlineKeyParts(rejection) == ExtractRejectionKey(rejection)
            && InlineKeyParts(rejection).0 == (if cover.Some? then cover.value.domain else "")
            && (page.NilCommandPage? || page.command.None? ==> InlineKeyParts(rejection).1 == "")
            && (page.CommandPage? && page.command.Some? && '/' !in page.command.value.typeUrl ==>
                  InlineKeyParts(rejection).1 == page.command.value.typeUrl)
  {
    ExtractionsAgree(Rejection(Some(CommandBook(cover, [page] + rest)), reason));
  }

  lemma RejectionWithoutPage(cover: Option<Cover>, reason: string)
    ensures InlineKeyParts(Rejection(None, reason)) == ("", "") == ExtractRejectionKey(Rejection(None, reason))
    ensures InlineKeyParts(Rejection(Some(CommandBook(cover, [])), reason)) == ("", "")
    ensures ExtractRejectionKey(Rejection(Some(CommandBook(cover, [])), reason)) ==
            (if cover.Some? then cover.value.domain else "", "")
  {
  }

  /** Which registered pairs a rejection reaches: exactly its own pair when the command name is slash-free; a
      command registered with a slash is reached only from a domain that absorbs the front of the command. */
  lemma RejectionReaches(d: string, c: string, domain: string, suffix: string)
    requires '/' !in suffix
    ensures RejectionKey(d, c) == RejectionKey(domain, suffix) <==>
            if '/' in c then After(c, '/') == suffix && domain == d + ['/'] + c[..LastIndex(c, '/')]
            else c == suffix && domain == d
  {
    if '/' in c {
      var x, tail := c[..LastIndex(c, '/')], After(c, '/');
      assert c == x + ['/'] + tail;
      assert RejectionKey(d, c) == (d + ['/'] + x) + ['/'] + tail;
      SameSplit(d + ['/'] + x, tail, domain, suffix, '/');
    } else {
      SameSplit(d, c, domain, suffix, '/');
    }
  }

  /** The command of a registration is compared with the whole type name, package included: a handler registered
      under the short name is not reached by a packaged command. */
  lemma RegisteredByFullName(d: string, c: string, domain: string, fullName: string)
    requires '/' !in c && '/' !in fullName
    ensures RejectionKey(d, c) == RejectionKey(domain, TypeNameFromURL(TYPE_URL_PREFIX + fullName)) <==>
            d == domain && c == fullName
    ensures '.' in fullName && c == After(fullName, '.') ==>
              RejectionKey(d, c) != RejectionKey(domain, TypeNameFromURL(TYPE_URL_PREFIX + fullName))
  {
    TypeNameRoundTrip(fullName);
    RejectionReaches(d, c, domain, fullName);
  }

  datatype RejectionRegistration<+H> = RejectionRegistration(domain: string, command: string, handler: H)

  function Keyed<H>(regs: seq<RejectionRegistration<H>>): seq<Registration<H>> {
    seq(|regs|, i requires 0 <= i < |regs| =>
      Registration(RejectionKey(regs[i].domain, regs[i].command), regs[i].handler))
  }

  function LastFor<H>(regs: seq<RejectionRegistration<H>>, domain: string, command: string): Option<H> {
    if regs == [] then None
    else
      var last := regs[|regs| - 1];
      if last.domain == domain && last.command == command then Some(last.handler)
      else LastFor(regs[..|regs| - 1], domain, command)
  }

  /** For every history of registrations with slash-free command names, the map lookup by joined key finds the
      last handler registered for exactly the rejection's domain and command suffix. */
  lemma {:induction false} RejectionRouting<H>(regs: seq<RejectionRegistration<H>>, domain: string, suffix: string)
    requires '/' !in suffix
    requires forall i :: 0 <= i < |regs| ==> '/' !in regs[i].command
    ensures var entries := Registered(Keyed(regs));
            var key := RejectionKey(domain, suffix);
            (if key in entries then Some(entries[key]) else None) == LastFor(regs, domain, suffix)
  {
    if regs != [] {
      var n := |regs| - 1;
      RejectionRouting(regs[..n], domain, suffix);
      assert Keyed(regs)[..n] == Keyed(regs[..n]);
      RejectionReaches(regs[n].domain, regs[n].command, domain, suffix);
    }
  }

  // ---------- Hex ----------

  const HEX_DIGITS: string := "0123456789abcdef"

  function Hex(bytes: seq<Byte>): (r: string)
    ensures |r| == 2 * |bytes|
    ensures forall c <- r :: c in HEX_DIGITS
  {
    if bytes == [] then ""
    else [HEX_DIGITS[bytes[0] / 16], HEX_DIGITS[bytes[0] % 16]] + Hex(bytes[1..])
  }

  function Nibble(c: char): int {
    if '0' <= c <= '9' then c as int - '0' as int
    else if 'a' <= c <= 'f' then c as int - 'a' as int + 10
    else 0
  }

  function Unhex(s: string): seq<int> {
    if |s| < 2 then [] else [16 * Nibble(s[0]) + Nibble(s[1])] + Unhex(s[2..])
  }

  lemma NibbleOfDigit(n: int)
    requires 0 <= n < 16
    ensures Nibble(HEX_DIGITS[n]) == n
  {
  }

  lemma DigitsOfByte(b: Byte)
    ensures 16 * Nibble(HEX_DIGITS[b / 16]) + Nibble(HEX_DIGITS[b % 16]) == b
  {
    NibbleOfDigit(b / 16);
    NibbleOfDigit(b % 16);
  }

  lemma UnhexTwo(c: char, d: char, rest: string)
    ensures Unhex([c, d] + rest) == [16 * Nibble(c) + Nibble(d)] + Unhex(rest)
  {
    assert ([c, d] + rest)[2..] == rest;
  }

  lemma {:induction false} HexRoundTrip(bytes: seq<Byte>)
    ensures Unhex(Hex(bytes)) == bytes
  {
    if bytes != [] {
      var b := bytes[0];
      DigitsOfByte(b);
      UnhexTwo(HEX_DIGITS[b / 16], HEX_DIGITS[b % 16], Hex(bytes[1..]));
      HexRoundTrip(bytes[1..]);
    }
  }

  lemma HexAvoids(bytes: seq<Byte>, c: char)
    requires c !in HEX_DIGITS
    ensures c !in Hex(bytes)
  {
  }

  // ---------- Cache keys ----------

  const UNKNOWN_DOMAIN: string := "unknown"

  datatype CoverBearing =
    | BookValue(events: EventBook)
    | CommandBookValue(commands: CommandBook)
    | QueryValue(queryCover: Option<Cover>)
    | CoverValue(cover: Option<Cover>)
    | OtherValue

  function CoverOf(v: CoverBearing): Option<Cover> {
    match v
    case BookValue(events) => events.cover
    case CommandBookValue(commands) => commands.cover
    case QueryValue(queryCover) => queryCover
    case CoverValue(cover) => cover
    case OtherValue => None
  }

  function Domain(v: CoverBearing): string {
    match CoverOf(v)
    case Some(c) => if c.domain == "" then UNKNOWN_DOMAIN else c.domain
    case None => UNKNOWN_DOMAIN
  }

  /** The root's bytes; a missing root counts as empty. */
  function RootBytes(v: CoverBearing): seq<Byte> {
    match CoverOf(v)
    case Some(c) => if c.root.Some? then c.root.value else []
    case None => []
  }

  function RootIDHex(v: CoverBearing): string {
    match CoverOf(v)
    case None => ""
    case Some(c) => if c.root.None? then "" else Hex(c.root.value)
  }

  function CacheKey(v: CoverBearing): string {
    Domain(v) + [':'] + RootIDHex(v)
  }

  lemma HexKeyInjective(d: string, b: seq<Byte>, d': string, b': seq<Byte>)
    ensures d + [':'] + Hex(b) == d' + [':'] + Hex(b') <==> d == d' && b == b'
  {
    HexAvoids(b, ':');
    HexAvoids(b', ':');
    SameSplit(d, Hex(b), d', Hex(b'), ':');
    HexRoundTrip(b);
    HexRoundTrip(b');
  }

  lemma RootIDHexIsHex(v: CoverBearing)
    ensures RootIDHex(v) == Hex(RootBytes(v))
  {
  }

  /** Two values share a cache key exactly when they have the same domain and the same root bytes, whatever
      separators the domains contain. */
  lemma CacheKeyInjective(v: CoverBearing, w: CoverBearing)
    ensures CacheKey(v) == CacheKey(w) <==> Domain(v) == Domain(w) && RootBytes(v) == RootBytes(w)
  {
    RootIDHexIsHex(v);
    RootIDHexIsHex(w);
    HexKeyInjective(Domain(v), RootBytes(v), Domain(w), RootBytes(w));
  }

  /** A cache key can be read back: its last separator ends the domain, and the rest decodes to the root. */
  lemma CacheKeyParts(v: CoverBearing)
    ensures var key := CacheKey(v);
            && LastIndex(key, ':') == |Domain(v)|
            && key[..|Domain(v)|] == Domain(v)
            && Unhex(After(key, ':')) == RootBytes(v)
  {
    RootIDHexIsHex(v);
    HexAvoids(RootBytes(v), ':');
    AfterSeparator(Domain(v), ':', RootIDHex(v));
    HexRoundTrip(RootBytes(v));
  }

  // ---------- UUID text ----------

  /** The text of a UUID (section 4 of RFC 9562) for 16 bytes, plain hex for anything else. */
  function BytesToUUIDText(b: seq<Byte>): string {
    var h := Hex(b);
    if |b| == 16 then
      Hyphenate(h[..8], Hyphenate(h[8..12], Hyphenate(h[12..16], Hyphenate(h[16..20], h[20..]))))
    else h
  }

  function Hyphenate(group: string, rest: string): string {
    group + ['-'] + rest
  }

  function DropHyphens(s: string): string {
    if s == [] then []
    else if s[0] == '-' then DropHyphens(s[1..])
    else [s[0]] + DropHyphens(s[1..])
  }

  lemma {:induction false} DropHyphensConcat(s: string, t: string)
    ensures DropHyphens(s + t) == DropHyphens(s) + DropHyphens(t)
  {
    if s == [] {
      assert s + t == t;
    } else {
      assert (s + t)[1..] == s[1..] + t;
      DropHyphensConcat(s[1..], t);
    }
  }

  lemma {:induction false} DropHyphensPlain(s: string)
    requires '-' !in s
    ensures DropHyphens(s) == s
  {
    if s != [] {
      DropHyphensPlain(s[1..]);
    }
  }

  lemma DropOneHyphen(group: string, rest: string)
    requires '-' !in group
    ensures DropHyphens(Hyphenate(group, rest)) == group + DropHyphens(rest)
  {
    assert Hyphenate(group, rest) == group + (['-'] + rest);
    DropHyphensConcat(group, ['-'] + rest);
    DropHyphensPlain(group);
    assert (['-'] + rest)[1..] == rest;
  }

  /** Dropping the hyphens and decoding the hex digits recovers the bytes, for every byte string. */
  lemma UUIDTextRoundTrip(b: seq<Byte>)
    ensures Unhex(DropHyphens(BytesToUUIDText(b))) == b
  {
    var h := Hex(b);
    HexAvoids(b, '-');
    if |b| == 16 {
      var e := h[20..];
      var d := Hyphenate(h[16..20], e);
      var c := Hyphenate(h[12..16], d);
      DropHyphensPlain(e);
      DropOneHyphen(h[16..20], e);
      DropOneHyphen(h[12..16], d);
      DropOneHyphen(h[8..12], c);
      DropOneHyphen(h[..8], Hyphenate(h[8..12], c));
      assert h[..8] + (h[8..12] + (h[12..16] + (h[16..20] + e))) == h;
    } else {
      DropHyphensPlain(h);
    }
    HexRoundTrip(b);
  }

  /** Equal texts come only from equal bytes: a hyphenated text never collides with a plain one. */
  lemma UUIDTextInjective(a: seq<Byte>, b: seq<Byte>)
    requires BytesToUUIDText(a) == BytesToUUIDText(b)
    ensures a == b
  {
    UUIDTextRoundTrip(a);
    UUIDTextRoundTrip(b);
  }

  predicate AllHex(s: string) {
    forall c <- s :: c in HEX_DIGITS
  }

  /** Groups of hex digits of the given lengths, with one hyphen between neighbours. */
  predicate IsGrouped(t: string, lengths: seq<nat>)
    requires lengths != []
  {
    var n := lengths[0];
    if |lengths| == 1 then |t| == n && AllHex(t)
    else |t| > n && AllHex(t[..n]) && t[n] == '-' && IsGrouped(t[n + 1..], lengths[1..])
  }

  lemma GroupedStep(group: string, rest: string, lengths: seq<nat>)
    requires lengths != [] && AllHex(group) && IsGrouped(rest, lengths)
    ensures IsGrouped(Hyphenate(group, rest), [|group|] + lengths)
  {
    var t := Hyphenate(group, rest);
    assert t[..|group|] == group && t[|group| + 1..] == rest;
    assert ([|group|] + lengths)[1..] == lengths;
  }

  /** 16 bytes give groups of 8-4-4-4-12 hex digits; any other length gives one group of two digits a byte. */
  lemma UUIDTextShape(b: seq<Byte>)
    ensures IsGrouped(BytesToUUIDText(b), if |b| == 16 then [8, 4, 4, 4, 12] else [2 * |b|])
  {
    var h := Hex(b);
    if |b| == 16 {
      var d := Hyphenate(h[16..20], h[20..]);
      GroupedStep(h[16..20], h[20..], [12]);
      var c := Hyphenate(h[12..16], d);
      GroupedStep(h[12..16], d, [4] + [12]);
      GroupedStep(h[8..12], c, [4] + ([4] + [12]));
      GroupedStep(h[..8], Hyphenate(h[8..12], c), [4] + ([4] + ([4] + [12])));
      assert [8] + ([4] + ([4] + ([4] + [12]))) == [8, 4, 4, 4, 12];
    }
  }

  // ---------- Written out ----------

  /** Two lower-case digits a byte, the higher half first. */
  lemma {:induction false} HexAt(bytes: seq<Byte>, i: nat)
    requires i < |bytes|
    ensures Hex(bytes)[2 * i] == "0123456789abcdef"[bytes[i] / 16]
    ensures Hex(bytes)[2 * i + 1] == "0123456789abcdef"[bytes[i] % 16]
  {
    if i > 0 {
      HexAt(bytes[1..], i - 1);
    }
  }

  /** The key of a cover, or of a book or query with that cover; a missing or empty domain reads "unknown". */
  lemma CacheKeyIs(v: CoverBearing)
    ensures forall domain, root, id, edition :: CoverOf(v) == Some(Cover(domain, root, id, edition)) ==>
              CacheKey(v) == (if domain == "" then "unknown" else domain) + ":" +
                             (if root.Some? then Hex(root.value) else "")
    ensures CoverOf(v) == None ==> CacheKey(v) == "unknown:"
  {
  }
}
