/** The naming resolver: method name and owning type name to HTTP verb,
    resource segment and action segment (utils.go, parseMethodName). */
module Naming {
  import opened GoStrings

  datatype Verb = GET | OPTIONS | POST
  {
    /** The net/http method constant. */
    function Name(): string
    {
      match this
      case GET => "GET"
      case OPTIONS => "OPTIONS"
      case POST => "POST"
    }
  }

  datatype ParsedName = ParsedName(verb: Verb, resource: string, action: string)

  /** The prefix of the method name that selects each verb. */
  function PrefixOf(v: Verb): string
  {
    match v
    case GET => "Get"
    case OPTIONS => "Options"
    case POST => ""
  }

  function ParseMethodName(typeName: string, name: string): (r: ParsedName)
    ensures r.resource == ToLower(typeName)
    ensures |r.action| == |name| - |PrefixOf(r.verb)|
  {
    if HasPrefix(name, "Get") then
      ParsedName(GET, ToLower(typeName), ToLower(name[3..]))
    else if HasPrefix(name, "Options") then
      ParsedName(OPTIONS, ToLower(typeName), ToLower(name[7..]))
    else
      ParsedName(POST, ToLower(typeName), ToLower(name))
  }

  /** Which verb a name gets, as an if-and-only-if for each verb: "Get" is
      tested first, "Options" second, everything else is POST. */
  lemma VerbSelection(typeName: string, name: string)
    ensures ParseMethodName(typeName, name).verb == GET <==> HasPrefix(name, "Get")
    ensures ParseMethodName(typeName, name).verb == OPTIONS <==>
              !HasPrefix(name, "Get") && HasPrefix(name, "Options")
    ensures ParseMethodName(typeName, name).verb == POST <==>
              !HasPrefix(name, "Get") && !HasPrefix(name, "Options")
  {
  }

  /** The action is what is left of the lower-cased name once the verb's
      prefix is taken off: prefix and action together give back the whole
      method name, lower-cased. */
  lemma ActionReconstructsName(typeName: string, name: string)
    ensures var r := ParseMethodName(typeName, name);
            HasPrefix(name, PrefixOf(r.verb)) &&
            ToLower(name) == ToLower(PrefixOf(r.verb)) + r.action
  {
    var r := ParseMethodName(typeName, name);
    var p := PrefixOf(r.verb);
    ActionIsRestOfName(typeName, name);
    ToLowerSplit(name, |p|);
  }

  /** The action is the lower-cased rest of the name after the verb's
      prefix: name[3:] for GET, name[7:] for OPTIONS, the whole name for
      POST. */
  lemma ActionIsRestOfName(typeName: string, name: string)
    ensures var r := ParseMethodName(typeName, name);
            HasPrefix(name, PrefixOf(r.verb)) && r.action == ToLower(name[|PrefixOf(r.verb)|..])
  {
    var r := ParseMethodName(typeName, name);
    if r.verb == POST {
      assert name[0..] == name;
    }
  }

  /** The resource segment never depends on the method name. */
  lemma ResourceIndependentOfMethod(typeName: string, m1: string, m2: string)
    ensures ParseMethodName(typeName, m1).resource == ParseMethodName(typeName, m2).resource
  {
  }

  /** reflect.Method.IsExported: the name starts with an upper-case letter
      (ASCII letters only in this model). */
  predicate IsExported(name: string)
  {
    |name| > 0 && IsUpperAscii(name[0])
  }
}
