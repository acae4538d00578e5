/**
 * The tree that `xmltodict.parse` hands back for an Avinor XML document,
 * the exceptions a walk over it can raise, and the outcome of one request
 * to the feed (custom_components/avinor_flight_data/api.py:22-45).
 *
 * Attributes become keys with a leading `@`, elements become keys without,
 * a repeated element becomes a list, text becomes a string and an empty
 * element becomes `None`.
 */
module XmlTree {
  import opened Outcomes

  datatype Node =
    | Map(entries: map<string, Node>)
    | List(items: seq<Node>)
    | Text(text: string)
    | Null

  /** The root of a parsed document is always a mapping. */
  type Document = map<string, Node>

  const EmptyMap: Node := Map(map[])

  /** Python truthiness: empty containers, the empty string and `None` are false. */
  predicate Truthy(n: Node)
  {
    match n
    case Map(m) => |m| > 0
    case List(xs) => |xs| > 0
    case Text(s) => |s| > 0
    case Null => false
  }

  /** Python's `a or b`: the first operand when it is truthy, otherwise the second. */
  function Or(a: Node, b: Node): Node
  {
    if Truthy(a) then a else b
  }

  /**
   * A chain `a or b or c` is the first truthy operand, else the last one;
   * it is truthy exactly when some operand is, and grouping does not matter.
   */
  lemma OrChain(a: Node, b: Node, c: Node)
    ensures Or(Or(a, b), c) == (if Truthy(a) then a else if Truthy(b) then b else c)
    ensures Or(Or(a, b), c) == Or(a, Or(b, c))
    ensures Truthy(Or(Or(a, b), c)) <==> Truthy(a) || Truthy(b) || Truthy(c)
  {
  }

  /** `d.get(k)`: the value under `k`, or `None` when the key is missing. */
  function Get(d: map<string, Node>, k: string): Node
  {
    if k in d then d[k] else Null
  }

  /** `d.get(k, default)`: the default only when the key is missing, not when its value is `None`. */
  function GetOr(d: map<string, Node>, k: string, default: Node): Node
  {
    if k in d then d[k] else default
  }

  /** Python's `type(x).__name__` for the values a parsed document holds. */
  function TypeName(n: Node): string
  {
    match n
    case Map(_) => "dict"
    case List(_) => "list"
    case Text(_) => "str"
    case Null => "NoneType"
  }

  /** `len(x)`, which exists for every value a parsed document holds except `None`. */
  function Len(n: Node): nat
    requires !n.Null?
  {
    match n
    case Map(m) => |m|
    case List(xs) => |xs|
    case Text(s) => |s|
  }

  /**
   * What a request or a walk over a tree can raise. The transport's kinds
   * carry the text that `str(err)` gives for them; the Python built-in
   * exceptions carry CPython's own message.
   */
  datatype Error =
    | Timeout
    | HttpStatus(status: int, message: string)
    | Connection(message: string)
    | Client(message: string)
    | Malformed(message: string)
    | AttributeError(message: string)
    | TypeError(message: string)
    | KeyError(key: string)

  /** `str(err)`. */
  function Describe(e: Error): string
  {
    match e
    case Timeout => ""
    case HttpStatus(_, m) => m
    case Connection(m) => m
    case Client(m) => m
    case Malformed(m) => m
    case AttributeError(m) => m
    case TypeError(m) => m
    case KeyError(k) => "'" + k + "'"
  }

  /** The AttributeError raised by `x.attr` when `x` has no such attribute. */
  function NoAttribute(n: Node, attr: string): Error
  {
    AttributeError("'" + TypeName(n) + "' object has no attribute '" + attr + "'")
  }

  /**
   * What `for it in x` walks over after the code has wrapped a bare mapping
   * into a one-element list: the list's elements, or the characters of a string,
   * each itself a string. Iterating `None` raises TypeError.
   */
  function Elements(n: Node): Result<seq<Node>, Error>
    requires !n.Map?
  {
    match n
    case List(xs) => Success(xs)
    case Text(s) => Success(seq(|s|, i requires 0 <= i < |s| => Text([s[i]])))
    case Null => Failure(TypeError("'NoneType' object is not iterable"))
  }

  /** `items = [items] if isinstance(items, dict) else items`, then what `for` walks over. */
  function Wrapped(n: Node): Result<seq<Node>, Error>
  {
    if n.Map? then Success([n]) else Elements(n)
  }

  /** A parameter value in a query string. */
  datatype Param = Str(s: string) | Int(i: int)

  /** The outcome of `_get_xml`: the parsed document, or what it raised. */
  datatype Fetched = Document(doc: Document) | Raised(err: Error)

  /** `_get_xml(url, params)`, supplied by the caller: HTTP, the 30 s timeout and the XML parser. */
  type Transport = (string, seq<(string, Param)>) -> Fetched
}
