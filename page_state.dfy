/** The per-crawler page state: a tag-name frequency table plus the browser
    window size, and the step that folds one page element into it. */
module PageState {
  import opened Common

  /** An error reported by a WebDriver command; its content is opaque here. */
  datatype CmdError = CmdError(code: nat)

  /** What the browser answers about one element: the tag-name lookup, and
      whether reading its bounding rectangle succeeds (the rectangle's
      floating-point coordinates are not modelled). */
  datatype Element = Element(tagName: Result<string, CmdError>, rectangle: Outcome<CmdError>)

  /** The frequency table: tag name to number of elements seen. */
  datatype Output = Output(freq: map<string, nat>)

  datatype State = State(output: Output, windowWidth: nat, windowHeight: nat)

  /** A counter read with `or_default` semantics: an absent name counts 0. */
  function Get(freq: map<string, nat>, name: string): nat
  {
    if name in freq then freq[name] else 0
  }

  /** Custom elements (web components) are the names that contain a hyphen. */
  predicate IsWebComponent(name: string)
  {
    '-' in name
  }

  /** The name `element` contributes to the table, if any: a successfully
      looked-up name that is not a web component. */
  function CountedName(element: Element): Option<string>
  {
    if element.tagName.Ok? && !IsWebComponent(element.tagName.value)
    then Some(element.tagName.value)
    else None
  }

  /** The one way `AcceptNode` fails: a `div` whose rectangle cannot be read. */
  predicate RectangleFails(element: Element)
  {
    element.tagName.Ok? && element.tagName.value == "div" && element.rectangle.Fail?
  }

  /** `Output::merge`: `HashMap::extend`, so the keys of `other` overwrite. */
  function Merge(base: Output, other: Output): (r: Output)
    ensures r.freq.Keys == base.freq.Keys + other.freq.Keys
    ensures forall k | k in other.freq :: r.freq[k] == other.freq[k]
    ensures forall k | k in base.freq && k !in other.freq :: r.freq[k] == base.freq[k]
  {
    Output(base.freq + other.freq)
  }

  /** Merging is an overwrite and not a sum: a name present in both tables
      ends with the value of `other`, not with the total. */
  lemma MergeOverwritesShared(base: Output, other: Output, name: string)
    requires name in base.freq && name in other.freq && base.freq[name] > 0
    ensures Get(Merge(base, other).freq, name) == Get(other.freq, name)
    ensures Get(Merge(base, other).freq, name) != Get(base.freq, name) + Get(other.freq, name)
  {
  }

  /** `State::new`: the window size queried from the browser and an empty table. */
  function New(windowSize: Result<(nat, nat), CmdError>): (r: Result<State, CmdError>)
    ensures windowSize.Err? ==> r == Err(windowSize.error)
    ensures windowSize.Ok? ==> r.Ok? && r.value.output.freq == map[]
    ensures windowSize.Ok? ==> r.value.windowWidth == windowSize.value.0 && r.value.windowHeight == windowSize.value.1
  {
    match windowSize
    case Err(e) => Err(e)
    case Ok((w, h)) => Ok(State(Output(map[]), w, h))
  }

  /** `State::accept_node`: one step of the fold over a page's elements. */
  function AcceptNode(s: State, element: Element): (r: Result<State, CmdError>)
    ensures element.tagName.Err? ==> r == Ok(s)
    ensures element.tagName.Ok? && IsWebComponent(element.tagName.value) ==> r == Ok(s)
    ensures r.Err? <==> RectangleFails(element)
    ensures r.Err? ==> r.error == element.rectangle.error
    ensures r.Ok? ==> r.value.windowWidth == s.windowWidth && r.value.windowHeight == s.windowHeight
    ensures r.Ok? ==> forall k :: Get(r.value.output.freq, k) == Get(s.output.freq, k) + (if CountedName(element) == Some(k) then 1 else 0)
    ensures r.Ok? ==> forall k :: k in r.value.output.freq <==> k in s.output.freq || CountedName(element) == Some(k)
  {
    match element.tagName
    case Err(_) => Ok(s)
    case Ok(name) =>
      if IsWebComponent(name) then Ok(s)
      else if name == "div" && element.rectangle.Fail? then Err(element.rectangle.error)
      else
        var freq := s.output.freq;
        Ok(s.(output := Output(freq[name := Get(freq, name) + 1])))
  }

  /** The crawler's `try_fold` of `AcceptNode` over a page's elements: stops at the first error. */
  function AcceptAll(s: State, elements: seq<Element>): (r: Result<State, CmdError>)
    ensures r.Ok? ==> r.value.windowWidth == s.windowWidth && r.value.windowHeight == s.windowHeight
    ensures r.Err? ==> exists i | 0 <= i < |elements| :: RectangleFails(elements[i]) && r.error == elements[i].rectangle.error
    decreases |elements|
  {
    if elements == [] then Ok(s)
    else
      assert forall i | 0 <= i < |elements| - 1 :: elements[1..][i] == elements[i + 1];
      match AcceptNode(s, elements[0])
      case Err(e) => Err(e)
      case Ok(next) => AcceptAll(next, elements[1..])
  }

  /** How many elements of `elements` contribute `name` to the table. */
  function Occurrences(elements: seq<Element>, name: string): nat
    decreases |elements|
  {
    if elements == [] then 0
    else (if CountedName(elements[0]) == Some(name) then 1 else 0) + Occurrences(elements[1..], name)
  }

  predicate NoRectangleFailure(elements: seq<Element>)
  {
    forall i | 0 <= i < |elements| :: !RectangleFails(elements[i])
  }

  lemma {:induction false} OccurrencesAppend(a: seq<Element>, b: seq<Element>, name: string)
    ensures Occurrences(a + b, name) == Occurrences(a, name) + Occurrences(b, name)
    decreases |a|
  {
    if a == [] {
      assert a + b == b;
    } else {
      assert (a + b)[1..] == a[1..] + b;
      OccurrencesAppend(a[1..], b, name);
    }
  }

  /** Folding hyphen-free, successfully named elements adds exactly their
      number of occurrences to each counter, adds exactly their names as
      keys, and leaves the window size alone. */
  lemma {:induction false} AcceptAllCounts(s: State, elements: seq<Element>)
    requires NoRectangleFailure(elements)
    ensures AcceptAll(s, elements).Ok?
    ensures AcceptAll(s, elements).value.windowWidth == s.windowWidth
    ensures AcceptAll(s, elements).value.windowHeight == s.windowHeight
    ensures forall k :: Get(AcceptAll(s, elements).value.output.freq, k) == Get(s.output.freq, k) + Occurrences(elements, k)
    ensures forall k :: k in AcceptAll(s, elements).value.output.freq <==> k in s.output.freq || Occurrences(elements, k) > 0
    decreases |elements|
  {
    if elements != [] {
      var next := AcceptNode(s, elements[0]).value;
      assert NoRectangleFailure(elements[1..]) by {
        forall i | 0 <= i < |elements[1..]| ensures !RectangleFails(elements[1..][i]) {
          assert elements[1..][i] == elements[i + 1];
        }
      }
      AcceptAllCounts(next, elements[1..]);
    }
  }

  /** The fold fails exactly with the rectangle error of the first failing `div`. */
  lemma {:induction false} AcceptAllFails(s: State, elements: seq<Element>, i: nat)
    requires i < |elements| && RectangleFails(elements[i])
    requires forall j | 0 <= j < i :: !RectangleFails(elements[j])
    ensures AcceptAll(s, elements) == Err(elements[i].rectangle.error)
    decreases i
  {
    if i > 0 {
      var next := AcceptNode(s, elements[0]).value;
      forall j | 0 <= j < i - 1 ensures !RectangleFails(elements[1..][j]) {
        assert elements[1..][j] == elements[j + 1];
      }
      AcceptAllFails(next, elements[1..], i - 1);
    }
  }

  lemma OccurrencesRemove(b: seq<Element>, j: nat, name: string)
    requires j < |b|
    ensures Occurrences(b, name) == Occurrences(b[..j] + b[j + 1..], name) + (if CountedName(b[j]) == Some(name) then 1 else 0)
  {
    assert b == b[..j] + b[j..];
    assert b[j..] == [b[j]] + b[j + 1..];
    OccurrencesAppend(b[..j], b[j..], name);
    OccurrencesAppend([b[j]], b[j + 1..], name);
    OccurrencesAppend(b[..j], b[j + 1..], name);
  }

  lemma MultisetRemove(b: seq<Element>, j: nat)
    requires j < |b|
    ensures multiset(b[..j] + b[j + 1..]) == multiset(b) - multiset{b[j]}
  {
    assert b == b[..j] + [b[j]] + b[j + 1..];
  }

  lemma {:induction false} OccurrencesPermutation(a: seq<Element>, b: seq<Element>, name: string)
    requires multiset(a) == multiset(b)
    ensures Occurrences(a, name) == Occurrences(b, name)
    decreases |a|
  {
    if a != [] {
      assert a[0] in multiset(b);
      var j :| 0 <= j < |b| && b[j] == a[0];
      var rest := b[..j] + b[j + 1..];
      MultisetRemove(b, j);
      assert a == [a[0]] + a[1..];
      assert multiset(a[1..]) == multiset(rest);
      OccurrencesPermutation(a[1..], rest, name);
      OccurrencesRemove(b, j, name);
    }
  }

  /** The final table does not depend on the order in which the elements are
      visited, as long as none of them makes the fold fail. */
  lemma AcceptAllOrderIndependent(s: State, a: seq<Element>, b: seq<Element>)
    requires multiset(a) == multiset(b)
    requires NoRectangleFailure(a)
    ensures AcceptAll(s, a) == AcceptAll(s, b)
  {
    assert NoRectangleFailure(b) by {
      forall i | 0 <= i < |b| ensures !RectangleFails(b[i]) {
        assert b[i] in multiset(a);
      }
    }
    AcceptAllCounts(s, a);
    AcceptAllCounts(s, b);
    forall k ensures Occurrences(a, k) == Occurrences(b, k) {
      OccurrencesPermutation(a, b, k);
    }
    var fa := AcceptAll(s, a).value.output.freq;
    var fb := AcceptAll(s, b).value.output.freq;
    assert fa.Keys == fb.Keys;
    assert forall k | k in fa :: fa[k] == Get(fa, k) == Get(fb, k) == fb[k];
    assert fa == fb;
  }
}
