/** The half of main.py's `get_claude_recommendations` that does not touch
    the network: finding the JSON array in the model's reply, shaping the
    parsed items into solutions, and the single fallback solution used
    whenever anything goes wrong. The HTTP reply and the JSON parser are
    inputs. */
module Generation {

  import opened Wrappers
  import opened Rag

  /** At most this many parsed items are kept (`solutions_data[:10]`). */
  const MaxSolutions: nat := 10

  /** Confidence given to an item that has none. */
  const DefaultConfidence: real := 0.5

  /** The only solution returned when the call or the parsing fails. */
  const Fallback: Solution := Solution(0, "Common deployment issue", 0.8,
    "Check your deployment configuration and ensure all environment variables are set correctly.")

  /** One element of the parsed JSON array; each field may be missing. */
  datatype Item = Item(description: Option<string>, confidence: Option<real>, solutionText: Option<string>)

  /** The HTTP exchange with the model API: either the request raised, or a
      status arrived together with the reply text at `content[0].text`
      (`None` when the body did not have that shape). */
  datatype Reply = Raised | Response(status: int, text: Option<string>)

  /** Index of the first `c` in `s` at or after `from`. */
  function FirstIndexOf(s: string, c: char, from: nat): (r: Option<nat>)
    requires from <= |s|
    ensures r.Some? ==> from <= r.value < |s| && s[r.value] == c
    ensures r.Some? ==> forall i :: from <= i < r.value ==> s[i] != c
    ensures r.None? ==> forall i :: from <= i < |s| ==> s[i] != c
    decreases |s| - from
  {
    if from == |s| then None
    else if s[from] == c then Some(from)
    else FirstIndexOf(s, c, from + 1)
  }

  /** Index of the last `c` in `s[..upto]`. */
  function LastIndexOf(s: string, c: char, upto: nat): (r: Option<nat>)
    requires upto <= |s|
    ensures r.Some? ==> r.value < upto && s[r.value] == c
    ensures r.Some? ==> forall i :: r.value < i < upto ==> s[i] != c
    ensures r.None? ==> forall i :: 0 <= i < upto ==> s[i] != c
  {
    if upto == 0 then None
    else if s[upto - 1] == c then Some(upto - 1)
    else LastIndexOf(s, c, upto - 1)
  }

  /** `re.search(r'\[.*\]', text, re.DOTALL)`: from the first `[` to the
      last `]`, when a `]` follows the first `[`. */
  function BracketSpan(text: string): (r: Option<string>)
    ensures r.None? <==> forall a, b :: 0 <= a < b < |text| && text[a] == '[' ==> text[b] != ']'
    ensures r.Some? ==> exists a, b :: 0 <= a < b < |text| && r.value == text[a..b + 1]
                                     && text[a] == '[' && text[b] == ']'
                                     && (forall i :: 0 <= i < a ==> text[i] != '[')
                                     && (forall i :: b < i < |text| ==> text[i] != ']')
  {
    match FirstIndexOf(text, '[', 0)
    case None => None
    case Some(a) =>
      match LastIndexOf(text, ']', |text|)
      case None => None
      case Some(b) => if a < b then Some(text[a..b + 1]) else None
  }

  /** The solution made from the item at position `i`. */
  function Shape(item: Item, i: nat): Solution {
    Solution(i, item.description.GetOr(""), item.confidence.GetOr(DefaultConfidence),
             item.solutionText.GetOr(""))
  }

  /** The `for i, sol in enumerate(solutions_data[:10])` loop. */
  function PostProcess(items: seq<Item>): (r: seq<Solution>)
    ensures |r| == if |items| < MaxSolutions then |items| else MaxSolutions
    ensures forall i :: 0 <= i < |r| ==> r[i].id == i
    ensures forall i :: 0 <= i < |r| ==> r[i].description == items[i].description.GetOr("")
    ensures forall i :: 0 <= i < |r| ==> r[i].confidence == items[i].confidence.GetOr(DefaultConfidence)
    ensures forall i :: 0 <= i < |r| ==> r[i].solutionText == items[i].solutionText.GetOr("")
  {
    var n := if |items| < MaxSolutions then |items| else MaxSolutions;
    seq(n, i requires 0 <= i < n => Shape(items[i], i))
  }

  /** main.py's `get_claude_recommendations`, given the API reply and the
      JSON parser (`None` for anything that raises: malformed JSON, a value
      that is not a list, an element among the first ten that is not an
      object, a field pydantic rejects). */
  function Recommend(reply: Reply, parse: string -> Option<seq<Item>>): (r: seq<Solution>)
    ensures |r| <= MaxSolutions
    ensures forall i :: 0 <= i < |r| ==> r[i].id == i
    ensures (reply.Raised? || reply.status != 200 || reply.text.None?) ==> r == [Fallback]
    ensures reply.Response? && reply.status == 200 && reply.text.Some? && BracketSpan(reply.text.value).None?
            ==> r == [Fallback]
    ensures reply.Response? && reply.status == 200 && reply.text.Some? && BracketSpan(reply.text.value).Some?
            && parse(BracketSpan(reply.text.value).value).None?
            ==> r == [Fallback]
  {
    match reply
    case Raised => [Fallback]
    case Response(status, text) =>
      if status != 200 || text.None? then [Fallback]
      else match BracketSpan(text.value)
        case None => [Fallback]
        case Some(span) =>
          match parse(span)
          case None => [Fallback]
          case Some(items) => PostProcess(items)
  }

  /** A parsed empty array is returned as it is, an empty list: the fallback
      is for failures only. */
  lemma EmptyArrayIsNotFallback(text: string, parse: string -> Option<seq<Item>>)
    requires BracketSpan(text).Some? && parse(BracketSpan(text).value) == Some([])
    ensures Recommend(Response(200, Some(text)), parse) == []
  {
  }

  /** A successful parse yields one solution per item, up to ten, fields
      copied in order and missing ones defaulted. */
  lemma {:induction false} ParsedItemsShaped(text: string, parse: string -> Option<seq<Item>>)
    requires BracketSpan(text).Some? && parse(BracketSpan(text).value).Some?
    ensures var items := parse(BracketSpan(text).value).value;
            Recommend(Response(200, Some(text)), parse) == PostProcess(items)
  {
  }

  /** The cap keeps the first ten items: dropping the rest first changes
      nothing, and a short list is kept whole. */
  lemma {:induction false} CapKeepsPrefix(items: seq<Item>, more: seq<Item>)
    ensures |items| >= MaxSolutions ==> PostProcess(items + more) == PostProcess(items)
    ensures PostProcess(items) <= PostProcess(items + more)
  {
    var r, r' := PostProcess(items), PostProcess(items + more);
    assert |r| <= |r'|;
    forall i | 0 <= i < |r| ensures r[i] == r'[i] {
      assert (items + more)[i] == items[i];
    }
  }

  /** Items with every field present come back as they were, numbered by
      position. */
  lemma CompleteItemsKept(items: seq<Item>, i: nat)
    requires i < |items| && i < MaxSolutions
    requires items[i].description.Some? && items[i].confidence.Some? && items[i].solutionText.Some?
    ensures PostProcess(items)[i]
         == Solution(i, items[i].description.value, items[i].confidence.value, items[i].solutionText.value)
  {
  }

  /** The greedy `.*` runs to the last `]`: when the reply is some text
      without `[`, then a bracketed part `x`, then text without `]`, the
      span handed to the parser is all of `x`, whatever brackets `x` holds
      inside (two arrays and the text between them, say). */
  lemma {:induction false} SpanIsOuterBrackets(p: string, x: string, q: string)
    requires forall i :: 0 <= i < |p| ==> p[i] != '['
    requires forall i :: 0 <= i < |q| ==> q[i] != ']'
    requires |x| >= 2 && x[0] == '[' && x[|x| - 1] == ']'
    ensures BracketSpan(p + x + q) == Some(x)
  {
    var t := p + x + q;
    var a, b := |p|, |p| + |x| - 1;
    assert t[a] == '[' && t[b] == ']';
    forall i | 0 <= i < a ensures t[i] != '[' {
      assert t[i] == p[i];
    }
    forall i | b < i < |t| ensures t[i] != ']' {
      assert t[i] == q[i - |p| - |x|];
    }
    assert FirstIndexOf(t, '[', 0) == Some(a);
    assert LastIndexOf(t, ']', |t|) == Some(b);
    assert t[a..b + 1] == x;
  }
}
