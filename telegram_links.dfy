/**
 * Telegram chat links (`telegram.Service` over the `telegram_links` table):
 * how `IssueLink` normalises the label and makes the one-time link code and
 * the ingest token, how `CompleteLink` normalises the code and which pending
 * rows it pairs with a chat, and the JSON view `SanitizeLink` gives of a row.
 *
 * The bytes `crypto/rand` reads are parameters (`None` when the read
 * fails). The schema of the table is not part of this model, so whether an
 * insert or an update breaks one of its unique constraints is a parameter
 * too. `NOW()` is the parameter `now`.
 */
module TelegramLinks {
  import opened Wrappers
  import opened Text
  import opened Numbers
  import opened Relations

  const NilUuid: string := "00000000-0000-0000-0000-000000000000"
  const DefaultLabel: string := "Default"
  const MaxLabelLength: int := 100
  const CodeLength: nat := 8
  const TokenBytes: nat := 24

  /** The code alphabet: capital letters and digits without I, O, 0 and 1. */
  const Alphabet: string := "ABCDEFGHJKLMNPQRSTUVWXYZ23456789"

  const ErrUserRequired: string := "userID is required"
  const ErrLabelTaken: string := "label already in use for this user"
  const ErrCodeRequired: string := "link code is required"
  const ErrNotFound: string := "telegram link not found"
  const ErrAlreadyLinked: string := "telegram chat already linked"
  const ErrGenerateCode: string := "failed to generate code"
  const ErrGenerateToken: string := "failed to generate token"

  /** `sql.NullInt64`, `sql.NullString`, `sql.NullTime`: a value and whether it is not NULL. */
  datatype Null<T> = Null(value: T, valid: bool)

  /** A row of `telegram_links`; instants are nanoseconds. */
  datatype Link = Link(id: string, userID: string, chatId: Null<int>, linkLabel: string,
                       linkCode: Null<string>, ingestToken: string, telegramHandle: Null<string>,
                       createdAt: int, linkedAt: Null<int>, revokedAt: Null<int>, lastSeenAt: Null<int>)

  /** `nullInt64ToPtr` and `nullStringToPtr`: nil for NULL, otherwise the value. */
  function NullToPtr<T>(n: Null<T>): (r: Option<T>)
    ensures r.None? <==> !n.valid
    ensures r.Some? ==> r.value == n.value
  {
    if !n.valid then None else Some(n.value)
  }

  /**
   * The label `IssueLink` stores: trimmed, "Default" when blank, and cut to
   * its first 100 bytes (one `char` each) when longer.
   */
  function NormalizeLabel(given: string): (r: string)
    ensures 0 < |r| <= MaxLabelLength
    ensures IsBlank(given) ==> r == DefaultLabel
    ensures !IsBlank(given) ==> r == TrimSpace(given)[..Min(|TrimSpace(given)|, MaxLabelLength)]
  {
    var trimmed := TrimSpace(given);
    TrimSpaceBlank(given);
    if |trimmed| == 0 then DefaultLabel
    else if |trimmed| > MaxLabelLength then assert Min(|trimmed|, MaxLabelLength) == MaxLabelLength; trimmed[..MaxLabelLength]
    else assert trimmed[..Min(|trimmed|, MaxLabelLength)] == trimmed; trimmed
  }

  function Min(a: int, b: int): int {
    if a < b then a else b
  }

  /** The characters `randomCode` can produce. */
  predicate IsCodeChar(c: char) {
    ('A' <= c <= 'Z' && c != 'I' && c != 'O') || ('2' <= c <= '9')
  }

  /** The alphabet has 32 symbols, all code characters. */
  lemma AlphabetIsCodeChars(alphabet: string)
    requires alphabet == Alphabet
    ensures |alphabet| == 32
    ensures forall i :: 0 <= i < |alphabet| ==> IsCodeChar(alphabet[i])
  {
  }

  /**
   * `randomCode`: each random byte is replaced, in place, by the alphabet
   * symbol it selects modulo 32.
   */
  method RandomCode(length: nat, random: Option<seq<Byte>>) returns (r: Result<string, string>)
    requires random.Some? ==> |random.value| == length
    ensures random.None? ==> r == Err(ErrGenerateCode)
    ensures random.Some? ==> r.Ok? && |r.value| == length
    ensures random.Some? ==> forall i :: 0 <= i < length ==> r.value[i] == Alphabet[random.value[i] % |Alphabet|]
    ensures r.Ok? ==> forall i :: 0 <= i < |r.value| ==> IsCodeChar(r.value[i])
  {
    if random.None? {
      return Err(ErrGenerateCode);
    }
    var read := random.value;
    var bytes := new Byte[length](i requires 0 <= i < length => read[i]);
    MapToSymbols(bytes);
    r := Ok(seq(length, i requires 0 <= i < length reads bytes => bytes[i] as char));
    assert forall i :: 0 <= i < length ==> r.value[i] == Symbol(read[i]);
  }

  /** The loop of `randomCode`: every byte becomes the code of the symbol it selects. */
  method MapToSymbols(bytes: array<Byte>)
    modifies bytes
    ensures forall k :: 0 <= k < bytes.Length ==> bytes[k] == Symbol(old(bytes[k])) as int
  {
    for i := 0 to bytes.Length
      invariant forall k :: 0 <= k < i ==> bytes[k] == Symbol(old(bytes[k])) as int
      invariant forall k :: i <= k < bytes.Length ==> bytes[k] == old(bytes[k])
    {
      bytes[i] := Symbol(bytes[i]) as int;
    }
  }

  /** The alphabet symbol a random byte selects: the byte modulo the alphabet's 32 symbols. */
  function Symbol(b: Byte): (c: char)
    ensures c == Alphabet[b % |Alphabet|] && IsCodeChar(c) && c as int < 256
  {
    AlphabetIsCodeChars(Alphabet);
    Alphabet[b % 32]
  }

  /** The lower-case hexadecimal digit of `d`. */
  function HexDigit(d: int): (c: char)
    requires 0 <= d < 16
    ensures ('0' <= c <= '9') || ('a' <= c <= 'f')
  {
    if d < 10 then ('0' as int + d) as char else ('a' as int + d - 10) as char
  }

  /** The value of a hexadecimal digit of either case. */
  function HexValue(c: char): (r: Option<int>)
    ensures r.Some? ==> 0 <= r.value < 16
    ensures r.Some? <==> ('0' <= c <= '9') || ('a' <= c <= 'f') || ('A' <= c <= 'F')
  {
    if '0' <= c <= '9' then Some(c as int - '0' as int)
    else if 'a' <= c <= 'f' then Some(c as int - 'a' as int + 10)
    else if 'A' <= c <= 'F' then Some(c as int - 'A' as int + 10)
    else None
  }

  /** `hex.EncodeToString`: two lower-case digits per byte, high half first. */
  function HexEncode(bytes: seq<Byte>): (r: string)
    ensures |r| == 2 * |bytes|
    ensures forall i :: 0 <= i < |bytes| ==> r[2 * i] == HexDigit(bytes[i] / 16) && r[2 * i + 1] == HexDigit(bytes[i] % 16)
  {
    if bytes == [] then []
    else
      var rest := HexEncode(bytes[1..]);
      assert forall i :: 1 <= i < |bytes| ==> bytes[i] == bytes[1..][i - 1];
      [HexDigit(bytes[0] / 16), HexDigit(bytes[0] % 16)] + rest
  }

  /** `hex.DecodeString`: an even number of digits of either case. */
  function HexDecode(s: string): (r: Option<seq<Byte>>)
    ensures r.Some? ==> 2 * |r.value| == |s|
    decreases |s|
  {
    if s == [] then Some([])
    else if |s| == 1 then None
    else match (HexValue(s[0]), HexValue(s[1]), HexDecode(s[2..]))
      case (Some(hi), Some(lo), Some(rest)) => Some([hi * 16 + lo] + rest)
      case _ => None
  }

  lemma HexValueOfDigit(d: int)
    requires 0 <= d < 16
    ensures HexValue(HexDigit(d)) == Some(d)
  {
  }

  /** Decoding the hexadecimal form of some bytes gives the bytes back. */
  lemma {:induction false} HexRoundTrip(bytes: seq<Byte>)
    ensures HexDecode(HexEncode(bytes)) == Some(bytes)
  {
    if bytes != [] {
      var s := HexEncode(bytes);
      assert s[2..] == HexEncode(bytes[1..]);
      HexValueOfDigit(bytes[0] / 16);
      HexValueOfDigit(bytes[0] % 16);
      HexRoundTrip(bytes[1..]);
      assert [bytes[0]] + bytes[1..] == bytes;
    }
  }

  /** `randomToken`: the hexadecimal form of the random bytes. */
  function RandomToken(byteLength: nat, random: Option<seq<Byte>>): (r: Result<string, string>)
    requires random.Some? ==> |random.value| == byteLength
    ensures random.None? ==> r == Err(ErrGenerateToken)
    ensures random.Some? ==> r.Ok? && |r.value| == 2 * byteLength && HexDecode(r.value) == random
  {
    if random.None? then Err(ErrGenerateToken)
    else
      HexRoundTrip(random.value);
      Ok(HexEncode(random.value))
  }

  /** The code `CompleteLink` looks for: upper-cased, then trimmed. */
  function NormalizeCode(code: string): (r: string)
    ensures |r| <= |code|
    ensures r == [] || (!IsSpace(r[0]) && !IsSpace(r[|r| - 1]))
  {
    TrimSpace(ToUpper(code))
  }

  /** A normalised code is normalised already: its letters are upper-case and it is trimmed. */
  lemma NormalizeCodeIdempotent(code: string)
    ensures NormalizeCode(NormalizeCode(code)) == NormalizeCode(code)
  {
    var upper := ToUpper(code);
    var r := TrimSpace(upper);
    UpperIsUpper(code);
    TrimKeepsUpper(upper);
    UpperUnchanged(r);
    TrimSpaceIdempotent(upper);
  }

  /** Upper-casing leaves no lower-case letter. */
  lemma UpperIsUpper(s: string)
    ensures forall i :: 0 <= i < |ToUpper(s)| ==> UpperChar(ToUpper(s)[i]) == ToUpper(s)[i]
  {
    forall i | 0 <= i < |ToUpper(s)|
      ensures UpperChar(ToUpper(s)[i]) == ToUpper(s)[i]
    {
      var c := s[i];
      assert ToUpper(s)[i] == UpperChar(c);
    }
  }

  /** Upper-casing a string with no lower-case letter changes nothing. */
  lemma UpperUnchanged(s: string)
    requires forall i :: 0 <= i < |s| ==> UpperChar(s[i]) == s[i]
    ensures ToUpper(s) == s
  {
    assert forall i :: 0 <= i < |s| ==> ToUpper(s)[i] == s[i];
  }

  /** Trimming an upper-cased string leaves it upper-case: what is left is a slice of it. */
  lemma TrimKeepsUpper(upper: string)
    requires forall i :: 0 <= i < |upper| ==> UpperChar(upper[i]) == upper[i]
    ensures forall i :: 0 <= i < |TrimSpace(upper)| ==> UpperChar(TrimSpace(upper)[i]) == TrimSpace(upper)[i]
  {
    var left := TrimLeft(upper);
    var t := TrimRight(left);
    forall i | 0 <= i < |t|
      ensures UpperChar(t[i]) == t[i]
    {
      assert t[i] == left[i] == upper[|upper| - |left| + i];
    }
  }

  /** A code `randomCode` made is accepted as typed, in either case. */
  lemma IssuedCodeIsAccepted(code: string)
    requires code != [] && forall i :: 0 <= i < |code| ==> IsCodeChar(code[i])
    ensures NormalizeCode(code) == code && NormalizeCode(ToLower(code)) == code
  {
    assert ToUpper(code) == code;
    assert ToUpper(ToLower(code)) == code;
    TrimSpaceOfWord(code);
  }

  /**
   * PostgreSQL's `ILIKE` with the default escape character: `%` matches any
   * run of characters, `_` any one character, a backslash makes the next
   * character literal, and letters match regardless of case. A pattern that
   * ends in a lone backslash matches nothing.
   */
  function ILike(s: string, p: string): (r: bool)
    ensures s == [] ==> (r <==> forall i :: 0 <= i < |p| ==> p[i] == '%')
    decreases |s| + |p|
  {
    if p == [] then s == []
    else if p[0] == '%' then ILike(s, p[1..]) || (s != [] && ILike(s[1..], p))
    else if p[0] == '_' then s != [] && ILike(s[1..], p[1..])
    else if p[0] == '\\' then |p| >= 2 && s != [] && LowerChar(s[0]) == LowerChar(p[1]) && ILike(s[1..], p[2..])
    else s != [] && LowerChar(s[0]) == LowerChar(p[0]) && ILike(s[1..], p[1..])
  }

  /** No character of `p` is special to `ILIKE`. */
  predicate NoWildcard(p: string) {
    forall i :: 0 <= i < |p| ==> p[i] != '%' && p[i] != '_' && p[i] != '\\'
  }

  /** Without wildcards, `ILIKE` is equality up to case. */
  lemma {:induction false} ILikeLiteral(s: string, p: string)
    requires NoWildcard(p)
    ensures ILike(s, p) <==> EqualFold(s, p)
    decreases |p|
  {
    if p == [] {
      assert |ToLower(s)| == |s|;
    } else if s == [] {
      assert |ToLower(p)| == |p|;
    } else {
      ILikeLiteral(s[1..], p[1..]);
      ToLowerCons(s);
      ToLowerCons(p);
      assert ToLower(s)[0] == LowerChar(s[0]) && ToLower(p)[0] == LowerChar(p[0]);
      assert ToLower(s)[1..] == ToLower(s[1..]) && ToLower(p)[1..] == ToLower(p[1..]);
    }
  }

  /** `%` on its own matches every string. */
  lemma {:induction false} ILikePercent(s: string, p: string)
    requires p == "%"
    ensures ILike(s, p)
    decreases |s|
  {
    assert p[0] == '%' && p[1..] == [];
    if s != [] {
      ILikePercent(s[1..], p);
    }
  }

  /** "%" is left as it is by the code normalisation. */
  lemma PercentIsNormal(p: string)
    requires p == "%"
    ensures NormalizeCode(p) == p
  {
    assert ToUpper(p) == p;
    assert NoSpace(p);
    TrimSpaceOfWord(p);
  }

  /** A link waiting for its chat: it has a code, is not revoked and has no chat yet. */
  predicate Pending(l: Link) {
    l.linkCode.valid && !l.revokedAt.valid && !l.chatId.valid
  }

  /**
   * The rows `CompleteLink`'s update selects for a code: pending rows whose
   * code the code matches, as an `ILIKE` pattern as written, or equal up to
   * case when `exact`.
   */
  predicate Selects(l: Link, code: string, exact: bool)
    ensures Selects(l, code, exact) ==> Pending(l) && l.linkCode.valid
  {
    Pending(l) && (if exact then EqualFold(l.linkCode.value, code) else ILike(l.linkCode.value, code))
  }

  function Selector(code: string, exact: bool): Link -> bool {
    (l: Link) => Selects(l, code, exact)
  }

  /** A row after `CompleteLink` pairs it: the chat, the handle or NULL, both instants, and no code. */
  function Linked(l: Link, chatID: int, handle: string, now: int): (r: Link)
    ensures r.chatId == Null(chatID, true) && !r.linkCode.valid && r.linkedAt == Null(now, true)
    ensures r.telegramHandle.valid <==> handle != ""
    ensures r.id == l.id && r.userID == l.userID && r.linkLabel == l.linkLabel && r.ingestToken == l.ingestToken
  {
    l.(chatId := Null(chatID, true),
       telegramHandle := if handle == "" then Null("", false) else Null(handle, true),
       linkedAt := Null(now, true),
       linkCode := Null("", false),
       lastSeenAt := Null(now, true))
  }

  /** The table after the update: every selected row is paired, the others are as they were. */
  function LinkAll(links: seq<Link>, code: string, chatID: int, handle: string, now: int, exact: bool): (r: seq<Link>)
    ensures |r| == |links|
    ensures forall i :: 0 <= i < |r| ==>
      r[i] == if Selects(links[i], code, exact) then Linked(links[i], chatID, handle, now) else links[i]
  {
    seq(|links|, i requires 0 <= i < |links| =>
      if Selects(links[i], code, exact) then Linked(links[i], chatID, handle, now) else links[i])
  }

  /** As written, the code "%" pairs every pending link in the table with the chat. */
  lemma WildcardPairsEveryPendingLink(links: seq<Link>, code: string, chatID: int, handle: string, now: int, i: nat)
    requires code == "%" && i < |links| && Pending(links[i])
    ensures NormalizeCode(code) == code
    ensures LinkAll(links, code, chatID, handle, now, false)[i].chatId == Null(chatID, true)
  {
    PercentIsNormal(code);
    ILikePercent(links[i].linkCode.value, code);
  }

  /** Matching exactly, a row is paired only when its own code was given. */
  lemma ExactPairsOnlyItsCode(links: seq<Link>, code: string, chatID: int, handle: string, now: int, i: nat)
    requires i < |links|
    ensures LinkAll(links, code, chatID, handle, now, true)[i] != links[i] ==>
              Pending(links[i]) && EqualFold(links[i].linkCode.value, code)
  {
  }

  /** Matching exactly, "%" pairs no link whose code `randomCode` made. */
  lemma ExactRefusesWildcard(l: Link, code: string)
    requires code == "%"
    requires forall i :: 0 <= i < |l.linkCode.value| ==> IsCodeChar(l.linkCode.value[i])
    ensures !Selects(l, code, true)
  {
    var c := l.linkCode.value;
    if |c| == 1 {
      assert ToLower(c)[0] != ToLower(code)[0];
    } else {
      assert |ToLower(c)| != |ToLower(code)|;
    }
  }

  /** For a code without wildcard characters the two ways of selecting agree. */
  lemma SelectorsAgree(l: Link, code: string)
    requires NoWildcard(code)
    ensures Selects(l, code, false) == Selects(l, code, true)
  {
    ILikeLiteral(l.linkCode.value, code);
  }

  /** The rows of `telegram_links`. */
  class LinkTable {
    var links: seq<Link>

    constructor ()
      ensures links == []
    {
      links := [];
    }

    /**
     * `IssueLink`: a nil user is refused; the label is normalised, then an
     * 8-symbol code and a 24-byte token are drawn and the pending row is
     * inserted, unless that breaks a unique constraint.
     */
    method IssueLink(userID: string, given: string, id: string, now: int,
                     codeRandom: Option<seq<Byte>>, tokenRandom: Option<seq<Byte>>, duplicate: bool)
      returns (r: Result<Link, string>)
      requires codeRandom.Some? ==> |codeRandom.value| == CodeLength
      requires tokenRandom.Some? ==> |tokenRandom.value| == TokenBytes
      modifies this
      ensures userID == NilUuid ==> r == Err(ErrUserRequired)
      ensures r.Err? ==> links == old(links)
      ensures r.Ok? <==> userID != NilUuid && codeRandom.Some? && tokenRandom.Some? && !duplicate
      ensures r.Ok? ==> links == old(links) + [r.value] && Pending(r.value)
      ensures r.Ok? ==> r.value.id == id && r.value.userID == userID && r.value.linkLabel == NormalizeLabel(given)
      ensures r.Ok? ==> |r.value.linkCode.value| == CodeLength &&
                        forall i :: 0 <= i < CodeLength ==> IsCodeChar(r.value.linkCode.value[i])
      ensures r.Ok? ==> HexDecode(r.value.ingestToken) == tokenRandom && r.value.createdAt == now
    {
      if userID == NilUuid {
        return Err(ErrUserRequired);
      }
      var name := NormalizeLabel(given);
      var code := RandomCode(CodeLength, codeRandom);
      if code.Err? {
        return Err(code.error);
      }
      var token := RandomToken(TokenBytes, tokenRandom);
      if token.Err? {
        return Err(token.error);
      }
      if duplicate {
        return Err(ErrLabelTaken);
      }
      var link := Link(id, userID, Null(0, false), name, Null(code.value, true), token.value,
                       Null("", false), now, Null(0, false), Null(0, false), Null(0, false));
      links := links + [link];
      r := Ok(link);
    }

    /** `CompleteLink` as written: the code is an `ILIKE` pattern. */
    method CompleteLink(code: string, chatID: int, username: string, now: int, duplicate: bool)
      returns (r: Result<Link, string>)
      modifies this
      ensures NormalizeCode(code) == "" ==> r == Err(ErrCodeRequired)
      ensures r.Err? ==> links == old(links)
      ensures r.Ok? <==> NormalizeCode(code) != "" && !duplicate &&
                         exists i :: 0 <= i < |old(links)| && Selects(old(links)[i], NormalizeCode(code), false)
      ensures r.Ok? ==> links == LinkAll(old(links), NormalizeCode(code), chatID, TrimSpace(username), now, false)
      ensures r.Ok? ==> r.value in links && r.value.chatId == Null(chatID, true)
    {
      r := Complete(code, chatID, username, now, duplicate, false);
    }

    /** `CompleteLink` as intended: the code must equal the link's code up to case. */
    method CompleteLinkIntended(code: string, chatID: int, username: string, now: int, duplicate: bool)
      returns (r: Result<Link, string>)
      modifies this
      ensures NormalizeCode(code) == "" ==> r == Err(ErrCodeRequired)
      ensures r.Err? ==> links == old(links)
      ensures r.Ok? <==> NormalizeCode(code) != "" && !duplicate &&
                         exists i :: 0 <= i < |old(links)| && Selects(old(links)[i], NormalizeCode(code), true)
      ensures r.Ok? ==> links == LinkAll(old(links), NormalizeCode(code), chatID, TrimSpace(username), now, true)
      ensures r.Ok? ==> r.value in links && r.value.chatId == Null(chatID, true)
    {
      r := Complete(code, chatID, username, now, duplicate, true);
    }

    /**
     * The update both versions share: an empty code is refused before the
     * query; no selected row is not-found; a broken unique constraint is
     * already-linked; otherwise every selected row is paired and the first
     * is returned.
     */
    method Complete(code: string, chatID: int, username: string, now: int, duplicate: bool, exact: bool)
      returns (r: Result<Link, string>)
      modifies this
      ensures NormalizeCode(code) == "" ==> r == Err(ErrCodeRequired)
      ensures r.Err? ==> links == old(links)
      ensures r.Ok? <==> NormalizeCode(code) != "" && !duplicate &&
                         exists i :: 0 <= i < |old(links)| && Selects(old(links)[i], NormalizeCode(code), exact)
      ensures r.Ok? ==> links == LinkAll(old(links), NormalizeCode(code), chatID, TrimSpace(username), now, exact)
      ensures r.Ok? ==> r.value in links && r.value.chatId == Null(chatID, true)
    {
      var normalized := NormalizeCode(code);
      if normalized == "" {
        return Err(ErrCodeRequired);
      }
      var handle := TrimSpace(username);
      var first := FindFirst(links, Selector(normalized, exact));
      if first.None? {
        assert forall i :: 0 <= i < |links| ==> links[i] in links;
        return Err(ErrNotFound);
      }
      if duplicate {
        return Err(ErrAlreadyLinked);
      }
      var i := first.value;
      links := LinkAll(links, normalized, chatID, handle, now, exact);
      r := Ok(links[i]);
    }
  }

  /** What a JSON field of `SanitizeLink` holds. */
  datatype JsonValue = JString(s: string) | JInt(n: int) | JTime(t: int) | JNull

  /** The fields of the JSON object `SanitizeLink` builds. */
  datatype Field = Id | UserId | Label | ChatId | TelegramHandle | CreatedAt
                 | LinkedAt | RevokedAt | LastSeenAt | LinkCode | IngestToken

  /** The name a field has in the JSON object. */
  function FieldName(f: Field): string {
    match f
    case Id => "id"
    case UserId => "userId"
    case Label => "label"
    case ChatId => "chatId"
    case TelegramHandle => "telegramHandle"
    case CreatedAt => "createdAt"
    case LinkedAt => "linkedAt"
    case RevokedAt => "revokedAt"
    case LastSeenAt => "lastSeenAt"
    case LinkCode => "linkCode"
    case IngestToken => "ingestToken"
  }

  /** A `*int64` as JSON: null for nil. */
  function IntJson(p: Option<int>): JsonValue {
    if p.None? then JNull else JInt(p.value)
  }

  /** A `*string` as JSON: null for nil. */
  function StringJson(p: Option<string>): JsonValue {
    if p.None? then JNull else JString(p.value)
  }

  /**
   * `SanitizeLink`: the six fields every view has, the three instants that
   * are set, and the code and token only when secrets are included.
   */
  method SanitizeLink(link: Link, includeSecrets: bool) returns (payload: map<Field, JsonValue>)
    ensures Id in payload && UserId in payload && Label in payload
    ensures ChatId in payload && TelegramHandle in payload && CreatedAt in payload
    ensures payload[Id] == JString(link.id) && payload[UserId] == JString(link.userID)
    ensures payload[Label] == JString(link.linkLabel) && payload[CreatedAt] == JTime(link.createdAt)
    ensures payload[ChatId] == IntJson(NullToPtr(link.chatId))
    ensures payload[TelegramHandle] == StringJson(NullToPtr(link.telegramHandle))
    ensures LinkedAt in payload <==> link.linkedAt.valid
    ensures RevokedAt in payload <==> link.revokedAt.valid
    ensures LastSeenAt in payload <==> link.lastSeenAt.valid
    ensures LinkedAt in payload ==> payload[LinkedAt] == JTime(link.linkedAt.value)
    ensures RevokedAt in payload ==> payload[RevokedAt] == JTime(link.revokedAt.value)
    ensures LastSeenAt in payload ==> payload[LastSeenAt] == JTime(link.lastSeenAt.value)
    ensures IngestToken in payload <==> includeSecrets
    ensures LinkCode in payload <==> includeSecrets && link.linkCode.valid
    ensures includeSecrets ==> payload[IngestToken] == JString(link.ingestToken)
    ensures LinkCode in payload ==> payload[LinkCode] == JString(link.linkCode.value)
  {
    payload := map[
      Id := JString(link.id),
      UserId := JString(link.userID),
      Label := JString(link.linkLabel),
      ChatId := IntJson(NullToPtr(link.chatId)),
      TelegramHandle := StringJson(NullToPtr(link.telegramHandle)),
      CreatedAt := JTime(link.createdAt)
    ];
    payload := AddInstants(payload, link);
    if includeSecrets {
      payload := AddSecrets(payload, link);
    }
  }

  /** The base fields a step of `SanitizeLink` carries over unchanged. */
  predicate KeepsBase(before: map<Field, JsonValue>, after: map<Field, JsonValue>) {
    Id in before && UserId in before && Label in before &&
    ChatId in before && TelegramHandle in before && CreatedAt in before &&
    Id in after && UserId in after && Label in after &&
    ChatId in after && TelegramHandle in after && CreatedAt in after &&
    after[Id] == before[Id] && after[UserId] == before[UserId] && after[Label] == before[Label] &&
    after[ChatId] == before[ChatId] && after[TelegramHandle] == before[TelegramHandle] &&
    after[CreatedAt] == before[CreatedAt]
  }

  /** The three instants of `SanitizeLink`, each only when it is set. */
  method AddInstants(payload: map<Field, JsonValue>, link: Link) returns (r: map<Field, JsonValue>)
    requires Id in payload && UserId in payload && Label in payload
    requires ChatId in payload && TelegramHandle in payload && CreatedAt in payload
    requires LinkedAt !in payload && RevokedAt !in payload && LastSeenAt !in payload
    requires LinkCode !in payload && IngestToken !in payload
    ensures KeepsBase(payload, r)
    ensures LinkedAt in r <==> link.linkedAt.valid
    ensures RevokedAt in r <==> link.revokedAt.valid
    ensures LastSeenAt in r <==> link.lastSeenAt.valid
    ensures LinkedAt in r ==> r[LinkedAt] == JTime(link.linkedAt.value)
    ensures RevokedAt in r ==> r[RevokedAt] == JTime(link.revokedAt.value)
    ensures LastSeenAt in r ==> r[LastSeenAt] == JTime(link.lastSeenAt.value)
    ensures LinkCode !in r && IngestToken !in r
  {
    r := payload;
    if link.linkedAt.valid {
      r := r[LinkedAt := JTime(link.linkedAt.value)];
    }
    if link.revokedAt.valid {
      r := r[RevokedAt := JTime(link.revokedAt.value)];
    }
    if link.lastSeenAt.valid {
      r := r[LastSeenAt := JTime(link.lastSeenAt.value)];
    }
  }

  /** The secrets of `SanitizeLink`: the pending code when there is one, and the ingest token. */
  method AddSecrets(payload: map<Field, JsonValue>, link: Link) returns (r: map<Field, JsonValue>)
    requires Id in payload && UserId in payload && Label in payload
    requires ChatId in payload && TelegramHandle in payload && CreatedAt in payload
    ensures KeepsBase(payload, r)
    ensures LinkedAt in r <==> LinkedAt in payload
    ensures RevokedAt in r <==> RevokedAt in payload
    ensures LastSeenAt in r <==> LastSeenAt in payload
    ensures LinkedAt in r ==> r[LinkedAt] == payload[LinkedAt]
    ensures RevokedAt in r ==> r[RevokedAt] == payload[RevokedAt]
    ensures LastSeenAt in r ==> r[LastSeenAt] == payload[LastSeenAt]
    ensures LinkCode in r <==> LinkCode in payload || link.linkCode.valid
    ensures link.linkCode.valid ==> r[LinkCode] == JString(link.linkCode.value)
    ensures !link.linkCode.valid && LinkCode in payload ==> r[LinkCode] == payload[LinkCode]
    ensures IngestToken in r && r[IngestToken] == JString(link.ingestToken)
  {
    r := payload;
    if link.linkCode.valid {
      r := r[LinkCode := JString(link.linkCode.value)];
    }
    r := r[IngestToken := JString(link.ingestToken)];
  }
}
