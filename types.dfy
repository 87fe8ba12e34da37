/** Values shared by the adapters, the pipeline and the routers, and the
    library behaviour the model cannot see, passed in as function values. */
module Types {

  datatype Option<T> = None | Some(value: T) {
    function GetOr(default: T): T {
      if Some? then value else default
    }
  }

  /** A string-valued key of a JSON object: missing, `null`, or a string. */
  datatype JsonField = Absent | Null | Str(s: string)

  /** `obj.get(key, default)` on such a key. */
  function Get(f: JsonField, default: string): Option<string> {
    match f
    case Absent => Some(default)
    case Null => None
    case Str(s) => Some(s)
  }

  /** Python truthiness of an optional string such as `media.get("url")`: `None` and `""` are falsy. */
  predicate Truthy(u: Option<string>) {
    u.Some? && u.value != ""
  }

  /** What one network round trip inside an adapter's `try` produced: the decoded
      payload, or an exception (timeout, HTTP error, malformed body) that the adapter catches. */
  datatype Fetch<T> = Fetched(data: T) | Failed

  /** One slot of `asyncio.gather(*tasks, return_exceptions=True)`: a returned value or an exception object. */
  datatype TaskResult<T> = Returned(value: T) | Raised

  /** A Python `datetime`: timezone-aware (an absolute instant, in seconds) or
      naive (a local wall-clock reading, in seconds). */
  datatype DateTime = Aware(instant: int) | Naive(wall: int)

  /** The two readings of the clock the code takes: `datetime.now(timezone.utc)`
      (as an instant) and `datetime.now()` (naive local wall-clock time). */
  datatype Clock = Clock(utc: int, local: int)

  /** Library behaviour the model treats as given functions. */
  datatype Runtime = Runtime(
    clock: Clock,
    // Python's built-in hash(str), salted once per process.
    pyHash: string -> int,
    // The character class `\w` of Python's `re` module.
    isWordChar: char -> bool,
    // datetime.strptime(text, format), None where it raises.
    strptime: (string, string) -> Option<DateTime>,
    // dateutil.parser.parse(text), None where it raises.
    parseLenient: string -> Option<DateTime>,
    // datetime.isoformat().
    isoformat: DateTime -> string,
    // Group 1 of re.search(r'<img[^>]+src=["\']([^"\']+)["\']', text, re.IGNORECASE).
    imgSrc: string -> Option<string>,
    // Group 1 of re.search(r'background-image:\s*url\(["\']?([^"\']+)["\']?\)', text, re.IGNORECASE).
    backgroundImage: string -> Option<string>)

  /** The article dictionary an adapter emits; `None` is a JSON `null` copied from a provider's response. */
  datatype ArticleRecord = ArticleRecord(
    title: string,
    description: string,
    link: Option<string>,
    publishedAt: string,
    source: Option<string>,
    author: Option<string>,
    image: string)

  /** Python's `str(x)` on a string or `None`. */
  function PyStr(x: Option<string>): string {
    if x.Some? then x.value else "None"
  }

  /** The video dictionary the video adapter emits; `None` is a JSON `null` copied from the response. */
  datatype Video = Video(
    id: Option<string>,
    title: Option<string>,
    description: Option<string>,
    thumbnail: Option<string>,
    channel: Option<string>,
    publishedAt: string,
    channelId: Option<string>)

  /** Python's `abs` on an int. */
  function Abs(x: int): nat {
    if x < 0 then -x else x
  }

  function Min(a: int, b: int): int {
    if a <= b then a else b
  }
}
