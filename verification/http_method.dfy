/** The five HTTP methods a route may use, and their spellings. */
module HttpMethods {

  /** The source's `HttpMethod` string-literal union. */
  datatype HttpMethod = Get | Post | Put | Delete | Patch

  /** The lower-case literal the source stores in a route config; it is also
      the name of the router's registration method. */
  function Name(m: HttpMethod): string {
    match m
    case Get => "get"
    case Post => "post"
    case Put => "put"
    case Delete => "delete"
    case Patch => "patch"
  }

  /** ASCII upper-casing of one character; every other character is unchanged. */
  function UpperChar(c: char): char {
    if 'a' <= c <= 'z' then (c as int - 32) as char else c
  }

  /** `String.prototype.toUpperCase`, restricted to the ASCII letters, which is
      all a method name contains. */
  function ToUpper(s: string): string {
    if |s| == 0 then [] else [UpperChar(s[0])] + ToUpper(s[1..])
  }

  /** The spelling `method.toUpperCase()` produces, used in route keys and
      log lines. */
  function Upper(m: HttpMethod): string {
    match m
    case Get => "GET"
    case Post => "POST"
    case Put => "PUT"
    case Delete => "DELETE"
    case Patch => "PATCH"
  }

  /** `Upper` is exactly the upper-casing of the method's lower-case name. */
  lemma UpperIsToUpperOfName(m: HttpMethod)
    ensures Upper(m) == ToUpper(Name(m))
  {
    var s := Name(m);
    ToUpperAt(s);
    assert forall i :: 0 <= i < |s| ==> Upper(m)[i] == UpperChar(s[i]);
  }

  /** The five spellings, obtained by upper-casing the lower-case literals. */
  lemma UpperSpellings()
    ensures ToUpper(Name(Get)) == "GET"
    ensures ToUpper(Name(Post)) == "POST"
    ensures ToUpper(Name(Put)) == "PUT"
    ensures ToUpper(Name(Delete)) == "DELETE"
    ensures ToUpper(Name(Patch)) == "PATCH"
  {
    UpperIsToUpperOfName(Get);
    UpperIsToUpperOfName(Post);
    UpperIsToUpperOfName(Put);
    UpperIsToUpperOfName(Delete);
    UpperIsToUpperOfName(Patch);
  }

  /** Upper-casing keeps the length and maps every character on its own. */
  lemma {:induction false} ToUpperAt(s: string)
    ensures |ToUpper(s)| == |s|
    ensures forall i :: 0 <= i < |s| ==> ToUpper(s)[i] == UpperChar(s[i])
  {
    if |s| > 0 {
      ToUpperAt(s[1..]);
    }
  }

  /** An upper-cased name is a non-empty run of capital letters, so it never
      contains the space that separates it from the path in a route key. */
  lemma UpperIsCapitals(m: HttpMethod)
    ensures |Upper(m)| > 0
    ensures forall i :: 0 <= i < |Upper(m)| ==> 'A' <= Upper(m)[i] <= 'Z'
    ensures ' ' !in Upper(m)
  {
  }

  /** Distinct methods have distinct upper-case spellings. */
  lemma UpperInjective(m1: HttpMethod, m2: HttpMethod)
    ensures Upper(m1) == Upper(m2) <==> m1 == m2
  {
  }
}
