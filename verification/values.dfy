/** The Python values a Relaton record consists of once the YAML loader has
    parsed it, and the parts of Python's semantics that the converter relies
    on: subscripting (`v["key"]`, `v[0]`), slicing (`v[3:]`), iteration by a
    `for` loop, truth value (`if v:`) and the text an f-string interpolates
    (`str(v)`). */
module Values {

  /** A parsed YAML value. A mapping keeps its pairs in insertion order, as a
      Python dict does; its keys are strings. */
  datatype Value =
    | Str(s: string)
    | Int(i: int)
    | Bool(b: bool)
    | Null
    | List(items: seq<Value>)
    | Dict(entries: seq<Entry>)

  datatype Entry = Entry(key: string, val: Value)

  /** The Python exceptions the converter can raise. */
  datatype Exc = KeyError | IndexError | TypeError | AttributeError | ValueError

  /** What a Python expression does: produce a value or raise an exception.
      Failure-compatible, so `:-` propagates a raised exception. */
  datatype Outcome<+T> = Ok(value: T) | Raise(exc: Exc) {
    predicate IsFailure() {
      Raise?
    }

    function PropagateFailure<U>(): Outcome<U>
      requires Raise?
    {
      Raise(exc)
    }

    function Extract(): T
      requires Ok?
    {
      value
    }
  }

  /** The two subscripts the converter uses: a string key and the index 0. */
  datatype Subscript = Key(name: string) | First

  function Keys(entries: seq<Entry>): seq<string>
  {
    seq(|entries|, i requires 0 <= i < |entries| => entries[i].key)
  }

  /** `d[key]` on a dict: the value stored under `key`, or `KeyError`. */
  function Find(entries: seq<Entry>, key: string): (r: Outcome<Value>)
    ensures r.Ok? <==> key in Keys(entries)
    ensures r.Raise? ==> r.exc == KeyError
    ensures r.Ok? ==> exists i | 0 <= i < |entries| :: entries[i] == Entry(key, r.value)
  {
    if entries == [] then Raise(KeyError)
    else if entries[0].key == key then
      assert Keys(entries)[0] == key;
      Ok(entries[0].val)
    else
      assert Keys(entries) == [entries[0].key] + Keys(entries[1..]);
      var r := Find(entries[1..], key);
      assert r.Ok? ==> exists i | 0 <= i < |entries| :: entries[i] == Entry(key, r.value) by {
        if r.Ok? {
          var i :| 0 <= i < |entries[1..]| && entries[1..][i] == Entry(key, r.value);
          assert entries[i + 1] == Entry(key, r.value);
        }
      }
      r
  }

  /** Python's `v[k]`. A dict raises `KeyError` for a key it lacks and for the
      index 0 (its keys are strings); a list or a string raises `IndexError`
      at index 0 when empty and `TypeError` for a string key; every other
      value is not subscriptable. */
  function Sub(v: Value, k: Subscript): (r: Outcome<Value>)
    ensures r == Raise(KeyError) <==> v.Dict? && (k.First? || k.name !in Keys(v.entries))
    ensures r == Raise(IndexError) <==> k.First? && (v == List([]) || v == Str(""))
    ensures r == Raise(TypeError) <==> (k.Key? && (v.List? || v.Str?)) || !(v.Dict? || v.List? || v.Str?)
    ensures r.Raise? ==> r.exc in {KeyError, IndexError, TypeError}
    ensures v.Dict? && k.Key? ==> r == Find(v.entries, k.name)
    ensures r.Ok? && k.First? ==> (v.List? && r.value == v.items[0]) || (v.Str? && r == Ok(Str([v.s[0]])))
  {
    match v
    case Dict(entries) =>
      (match k
       case Key(name) => Find(entries, name)
       case First => Raise(KeyError))
    case List(items) =>
      (match k
       case First => if |items| == 0 then Raise(IndexError) else Ok(items[0])
       case Key(_) => Raise(TypeError))
    case Str(s) =>
      (match k
       case First => if |s| == 0 then Raise(IndexError) else Ok(Str([s[0]]))
       case Key(_) => Raise(TypeError))
    case _ => Raise(TypeError)
  }

  /** A chain of subscripts `v[k0][k1]...`, evaluated left to right; the first
      exception ends the chain. */
  function Resolve(v: Value, path: seq<Subscript>): Outcome<Value>
    decreases path
  {
    if path == [] then Ok(v)
    else
      var w :- Sub(v, path[0]);
      Resolve(w, path[1..])
  }

  /** Subscripting `p + q` is subscripting `p` and then `q` on what it gave. */
  lemma {:induction false} ResolveAppend(v: Value, p: seq<Subscript>, q: seq<Subscript>)
    ensures Resolve(v, p + q) == (match Resolve(v, p)
                                  case Ok(w) => Resolve(w, q)
                                  case Raise(e) => Raise(e))
    decreases p
  {
    if p == [] {
      assert p + q == q;
    } else {
      assert (p + q)[0] == p[0] && (p + q)[1..] == p[1..] + q;
      match Sub(v, p[0])
      case Ok(w) =>
        assert Resolve(v, p) == Resolve(w, p[1..]);
        assert Resolve(v, p + q) == Resolve(w, p[1..] + q);
        ResolveAppend(w, p[1..], q);
      case Raise(e) =>
        assert Resolve(v, p) == Raise(e);
        assert Resolve(v, p + q) == Raise(e);
    }
  }

  /** Python's `v[n:]`: a string or a list without its first `n` elements
      (empty when it is shorter); anything else raises `TypeError`. */
  function Slice(v: Value, n: nat): (r: Outcome<Value>)
    ensures r.Ok? <==> v.Str? || v.List?
    ensures r.Raise? ==> r.exc == TypeError
    ensures v.Str? && n <= |v.s| ==> r.value.Str? && v.s == v.s[..n] + r.value.s
    ensures v.Str? && |v.s| < n ==> r.value == Str("")
    ensures v.List? && n <= |v.items| ==> r.value.List? && v.items == v.items[..n] + r.value.items
    ensures v.List? && |v.items| < n ==> r.value == List([])
  {
    match v
    case Str(s) => Ok(Str(if n <= |s| then s[n..] else ""))
    case List(items) => Ok(List(if n <= |items| then items[n..] else []))
    case _ => Raise(TypeError)
  }

  /** The elements a `for` loop visits: the items of a list, the keys of a
      dict, the one-character strings of a string. Any other value is not
      iterable. */
  function Iterate(v: Value): (r: Outcome<seq<Value>>)
    ensures r.Ok? <==> v.List? || v.Dict? || v.Str?
    ensures r.Raise? ==> r.exc == TypeError
    ensures v.List? ==> r == Ok(v.items)
    ensures v.Dict? ==> |r.value| == |v.entries| && forall i | 0 <= i < |v.entries| :: r.value[i] == Str(v.entries[i].key)
    ensures v.Str? ==> |r.value| == |v.s| && forall i | 0 <= i < |v.s| :: r.value[i] == Str([v.s[i]])
  {
    match v
    case List(items) => Ok(items)
    case Dict(entries) => Ok(seq(|entries|, i requires 0 <= i < |entries| => Str(entries[i].key)))
    case Str(s) => Ok(seq(|s|, i requires 0 <= i < |s| => Str([s[i]])))
    case _ => Raise(TypeError)
  }

  /** Python's truth value: empty strings and containers, zero, `False` and
      `None` are false. */
  predicate Truthy(v: Value)
  {
    match v
    case Str(s) => s != ""
    case Int(i) => i != 0
    case Bool(b) => b
    case Null => false
    case List(items) => items != []
    case Dict(entries) => entries != []
  }

  /** The text `str(v)`, which an f-string interpolates: a string as it is,
      anything else as its `repr`. */
  function Display(v: Value): string
  {
    if v.Str? then v.s else Repr(v)
  }

  /** Python's `repr(v)`. */
  function Repr(v: Value): string
    decreases v, 1
  {
    match v
    case Str(s) => StrRepr(s)
    case Int(i) => IntText(i)
    case Bool(b) => if b then "True" else "False"
    case Null => "None"
    case List(items) => "[" + ReprItems(v, 0) + "]"
    case Dict(entries) => "{" + ReprEntries(v, 0) + "}"
  }

  /** The items of the list `v` from index `from` on, as `repr` joins them. */
  function ReprItems(v: Value, from: nat): string
    requires v.List?
    decreases v, 0, |v.items| - from
  {
    if from >= |v.items| then ""
    else
      (if from == 0 then "" else ", ") + Repr(v.items[from]) + ReprItems(v, from + 1)
  }

  /** The pairs of the dict `v` from index `from` on, as `repr` joins them. */
  function ReprEntries(v: Value, from: nat): string
    requires v.Dict?
    decreases v, 0, |v.entries| - from
  {
    if from >= |v.entries| then ""
    else
      (if from == 0 then "" else ", ") + StrRepr(v.entries[from].key) + ": " + Repr(v.entries[from].val)
      + ReprEntries(v, from + 1)
  }

  /** Python's `repr` of a string: single quotes, or double quotes when the
      text holds a single quote and no double quote; the chosen quote, the
      backslash and the ASCII control characters are escaped. */
  function StrRepr(s: string): string
  {
    var quote := if '\'' in s && '"' !in s then '"' else '\'';
    [quote] + Escaped(s, quote) + [quote]
  }

  function Escaped(s: string, quote: char): string
  {
    if s == [] then "" else EscapedChar(s[0], quote) + Escaped(s[1..], quote)
  }

  function EscapedChar(c: char, quote: char): string
  {
    if c == quote || c == '\\' then ['\\', c]
    else if c == '\t' then "\\t"
    else if c == '\n' then "\\n"
    else if c == '\r' then "\\r"
    else if c as int < 0x20 || c as int == 0x7f then "\\x" + HexByte(c as int)
    else [c]
  }

  function HexByte(n: int): string
    requires 0 <= n < 256
  {
    var digits := "0123456789abcdef";
    [digits[n / 16], digits[n % 16]]
  }

  function DigitChar(d: nat): char
    requires d < 10
  {
    "0123456789"[d]
  }

  /** The decimal digits of `n`, without leading zeros. */
  function NatText(n: nat): string
  {
    if n < 10 then [DigitChar(n)] else NatText(n / 10) + [DigitChar(n % 10)]
  }

  /** `str(i)` for an int. */
  function IntText(i: int): string
  {
    if i < 0 then "-" + NatText(-i) else NatText(i)
  }
}
