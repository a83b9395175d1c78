/** The HTTP verbs an endpoint can be mapped to (`HttpVerbs`, src/main.rs:73-98),
    their printed names, and the dictionary of mapping annotations the line
    parser accepts (src/main.rs:226-252). */
module Verbs {
  import opened Text

  datatype HttpVerb = Get | Post | Put | Patch | Delete | Options | Head | Any

  predicate IsUpperAscii(c: char) {
    'A' <= c <= 'Z'
  }

  /** `HttpVerbs::as_str`: the name the report prints for a verb, a non-empty
      word of upper-case ASCII letters. */
  function AsStr(v: HttpVerb): (s: string)
    ensures |s| > 0 && forall i | 0 <= i < |s| :: IsUpperAscii(s[i])
  {
    match v
    case Get => "GET"
    case Post => "POST"
    case Put => "PUT"
    case Patch => "PATCH"
    case Delete => "DELETE"
    case Options => "OPTIONS"
    case Head => "HEAD"
    case Any => "ANY"
  }

  /** Reads a printed verb name back. */
  function VerbNamed(s: string): (r: Option<HttpVerb>)
  {
    if s == "GET" then Some(Get)
    else if s == "POST" then Some(Post)
    else if s == "PUT" then Some(Put)
    else if s == "PATCH" then Some(Patch)
    else if s == "DELETE" then Some(Delete)
    else if s == "OPTIONS" then Some(Options)
    else if s == "HEAD" then Some(Head)
    else if s == "ANY" then Some(Any)
    else None
  }

  /** The printed names are exactly the names `VerbNamed` reads, one per verb,
      so no two verbs print alike. */
  lemma AsStrRoundTrip(v: HttpVerb, s: string)
    ensures VerbNamed(s) == Some(v) <==> AsStr(v) == s
  {
  }

  /** The word between '@' and "Mapping" in the annotation for `v`. */
  function Stem(v: HttpVerb): (w: string)
    ensures |w| > 0 && forall i | 0 <= i < |w| :: IsWordChar(w[i])
  {
    match v
    case Any => "Request"
    case Delete => "Delete"
    case Get => "Get"
    case Head => "Head"
    case Options => "Options"
    case Patch => "Patch"
    case Post => "Post"
    case Put => "Put"
  }

  /** The mapping annotation that declares an endpoint for `v`. */
  function Annotation(v: HttpVerb): (a: string)
  {
    match v
    case Any => "@RequestMapping"
    case Delete => "@DeleteMapping"
    case Get => "@GetMapping"
    case Head => "@HeadMapping"
    case Options => "@OptionsMapping"
    case Patch => "@PatchMapping"
    case Post => "@PostMapping"
    case Put => "@PutMapping"
  }

  /** Every annotation is '@', its stem and "Mapping". */
  lemma AnnotationShape(v: HttpVerb)
    ensures Annotation(v) == "@" + Stem(v) + "Mapping"
    ensures IsAnnotationShaped(Annotation(v))
  {
    match v {
      case Any => assert "@RequestMapping" == "@" + "Request" + "Mapping";
      case Delete => assert "@DeleteMapping" == "@" + "Delete" + "Mapping";
      case Get => assert "@GetMapping" == "@" + "Get" + "Mapping";
      case Head => assert "@HeadMapping" == "@" + "Head" + "Mapping";
      case Options => assert "@OptionsMapping" == "@" + "Options" + "Mapping";
      case Patch => assert "@PatchMapping" == "@" + "Patch" + "Mapping";
      case Post => assert "@PostMapping" == "@" + "Post" + "Mapping";
      case Put => assert "@PutMapping" == "@" + "Put" + "Mapping";
    }
    StemShape(Stem(v));
  }

  lemma StemShape(stem: string)
    requires |stem| > 0 && forall i | 0 <= i < |stem| :: IsWordChar(stem[i])
    ensures IsAnnotationShaped("@" + stem + "Mapping")
  {
    var a := "@" + stem + "Mapping";
    assert forall i | 1 <= i <= |stem| :: a[i] == stem[i - 1];
    assert forall i | 1 + |stem| <= i < |a| :: a[i] == "Mapping"[i - 1 - |stem|];
    assert a[|a| - 7..] == "Mapping";
  }

  /** '@', at least one word character, then "Mapping" closing the name;
      such a name holds neither whitespace nor '(' nor non-ASCII characters. */
  predicate IsAnnotationShaped(a: string) {
    |a| >= 9 && a[0] == '@' && a[|a| - 7..] == "Mapping" &&
    forall i | 1 <= i < |a| :: IsWordChar(a[i])
  }

  /** The if/else chain at src/main.rs:226-252: the annotation name found in
      the buffer selects a verb; any other name has none. */
  function AnnotationVerb(name: string): (r: Option<HttpVerb>)
  {
    if name == "@RequestMapping" then Some(Any)
    else if name == "@DeleteMapping" then Some(Delete)
    else if name == "@GetMapping" then Some(Get)
    else if name == "@HeadMapping" then Some(Head)
    else if name == "@OptionsMapping" then Some(Options)
    else if name == "@PatchMapping" then Some(Patch)
    else if name == "@PostMapping" then Some(Post)
    else if name == "@PutMapping" then Some(Put)
    else None
  }

  /** Each of the eight annotations selects its own verb. */
  lemma AnnotationSelectsVerb(v: HttpVerb)
    ensures AnnotationVerb(Annotation(v)) == Some(v)
  {
  }

  /** The dictionary accepts exactly the eight annotations, each for its own verb. */
  lemma AnnotationDictionary(name: string, v: HttpVerb)
    ensures AnnotationVerb(name) == Some(v) <==> name == Annotation(v)
  {
    AnnotationSelectsVerb(v);
    if AnnotationVerb(name).Some? {
      AnnotationSelectsVerb(AnnotationVerb(name).value);
    }
  }

  /** A name the dictionary accepts is never one character short of an
      accepted name: dropping the last character of an annotation always
      leaves a name the dictionary rejects. */
  lemma TruncatedAnnotationRejected(v: HttpVerb)
    ensures AnnotationVerb(Annotation(v)[..|Annotation(v)| - 1]) == None
  {
    var a := Annotation(v);
    var t := a[..|a| - 1];
    assert t[|t| - 1] == 'n';
    forall w: HttpVerb ensures t != Annotation(w) {
      var b := Annotation(w);
      assert b[|b| - 1] == 'g';
    }
    if AnnotationVerb(t).Some? {
      AnnotationDictionary(t, AnnotationVerb(t).value);
    }
  }
}
