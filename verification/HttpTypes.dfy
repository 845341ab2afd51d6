/** The parser's struct, its states and the calls it makes (webhdfs_image_proxy/http_parser.h). */
module HttpTypes {

  datatype State =
    | Dead
    | StartReqOrRes | ResOrRespH | StartRes | ResH | ResHT | ResHTT | ResHTTP
    | ResFirstMajor | ResMajor | ResFirstMinor | ResMinor
    | ResFirstStatusCode | ResStatusCode | ResStatus | ResLineAlmostDone
    | StartReq | ReqMethod
    | ReqSpacesBeforeUrl | ReqSchema | ReqSchemaSlash | ReqSchemaSlashSlash
    | ReqServerStart | ReqServer | ReqServerWithAt
    | ReqPath | ReqQueryStart | ReqQuery | ReqFragmentStart | ReqFragment
    | ReqHttpStart | ReqHttpH | ReqHttpHT | ReqHttpHTT | ReqHttpHTTP
    | ReqFirstMajor | ReqMajor | ReqFirstMinor | ReqMinor | ReqLineAlmostDone
    | HeaderFieldStart | HeaderField | HeaderValueStart | HeaderValue | HeaderValueLws | HeaderAlmostDone
    | ChunkSizeStart | ChunkSize | ChunkParameters | ChunkSizeAlmostDone
    | HeadersAlmostDone | HeadersDone
    | ChunkData | ChunkDataAlmostDone | ChunkDataDone
    | BodyIdentity | BodyIdentityEof
    | MessageDone

  /** How far the name or the value of the current header line matches a word the parser knows. */
  datatype HeaderState =
    | General | HC | HCO | HCON
    | MatchConnection | MatchProxyConnection | MatchContentLength | MatchTransferEncoding | MatchUpgrade
    | IsConnection | IsContentLength | IsTransferEncoding | IsUpgrade
    | MatchChunked | MatchKeepAlive | MatchClose
    | IsChunked | IsKeepAlive | IsClose

  datatype Method =
    | DELETE | GET | HEAD | POST | PUT | CONNECT | OPTIONS | TRACE | COPY | LOCK | MKCOL | MOVE
    | PROPFIND | PROPPATCH | SEARCH | UNLOCK | REPORT | MKACTIVITY | CHECKOUT | MERGE | MSEARCH
    | NOTIFY | SUBSCRIBE | UNSUBSCRIBE | PATCH | PURGE

  function MethodString(m: Method): string {
    match m
    case DELETE => "DELETE" case GET => "GET" case HEAD => "HEAD" case POST => "POST" case PUT => "PUT"
    case CONNECT => "CONNECT" case OPTIONS => "OPTIONS" case TRACE => "TRACE" case COPY => "COPY"
    case LOCK => "LOCK" case MKCOL => "MKCOL" case MOVE => "MOVE" case PROPFIND => "PROPFIND"
    case PROPPATCH => "PROPPATCH" case SEARCH => "SEARCH" case UNLOCK => "UNLOCK" case REPORT => "REPORT"
    case MKACTIVITY => "MKACTIVITY" case CHECKOUT => "CHECKOUT" case MERGE => "MERGE"
    case MSEARCH => "M-SEARCH" case NOTIFY => "NOTIFY" case SUBSCRIBE => "SUBSCRIBE"
    case UNSUBSCRIBE => "UNSUBSCRIBE" case PATCH => "PATCH" case PURGE => "PURGE"
  }

  datatype Kind = Request | Response | Both

  /** The errors this parser can raise by itself; a callback never fails here and nobody pauses it. */
  datatype Errno =
    | Ok | InvalidEofState | HeaderOverflow | ClosedConnection | InvalidVersion | InvalidStatus
    | InvalidMethod | InvalidUrl | LfExpected | InvalidHeaderToken | InvalidContentLength
    | InvalidChunkSize | InvalidConstant | Strict | Unknown

  datatype Flags = Flags(chunked: bool, keepAlive: bool, close: bool, trailing: bool, upgrade: bool, skipBody: bool)

  const NO_FLAGS := Flags(false, false, false, false, false, false)

  const ULLONG_MAX: nat := 0xFFFF_FFFF_FFFF_FFFF
  const TWO_TO_64: nat := 0x1_0000_0000_0000_0000
  const MAX_HEADER_SIZE: nat := 80 * 1024

  /** struct http_parser. */
  datatype Parser = Parser(
    kind: Kind, flags: Flags, state: State, headerState: HeaderState, index: nat,
    nread: nat, contentLength: nat,
    httpMajor: nat, httpMinor: nat, statusCode: nat, verb: Method, errno: Errno, upgrade: bool)

  /** http_parser_init: everything zero but the kind and the state. */
  function Init(kind: Kind): Parser {
    Parser(kind, NO_FLAGS,
           match kind case Request => StartReq case Response => StartRes case Both => StartReqOrRes,
           General, 0, 0, 0, 0, 0, 0, DELETE, Ok, false)
  }

  /** The four parts of a message that are handed over in fragments. */
  datatype Fragment = Url | Field | Value | Body

  datatype OptFragment = NoPart | Of(part: Fragment)

  /** One call of a callback; `status` is what the callback finds in the parser's status_code. */
  datatype Event =
    | MessageBegin | StatusComplete | HeadersComplete(status: nat) | MessageComplete
    | Data(part: Fragment, text: string)
}
