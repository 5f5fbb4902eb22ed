/** The JSON values the language model returns and the services pass around as
    Python dictionaries. Key order is not modelled. */
module Json {
  import opened Wrappers

  datatype Json =
    | JNull
    | JBool(b: bool)
    | JNum(n: real)
    | JStr(s: string)
    | JArr(items: seq<Json>)
    | JObj(fields: map<string, Json>)
  {
    /** `d.get(key)` on an object; `None` for a missing key or a value that is not an object. */
    function Get(key: string): (r: Option<Json>)
      ensures r.Some? <==> JObj? && key in fields
      ensures r.Some? ==> r.value == fields[key]
    {
      if JObj? && key in fields then Some(fields[key]) else None
    }

    /** The string at `key`, if there is one. */
    function GetStr(key: string): (r: Option<string>)
      ensures r.Some? <==> Get(key).Some? && Get(key).value.JStr?
      ensures r.Some? ==> Get(key) == Some(JStr(r.value))
    {
      match Get(key)
      case Some(JStr(s)) => Some(s)
      case _ => None
    }

    /** The number at `key`, if there is one. */
    function GetNum(key: string): (r: Option<real>)
      ensures r.Some? <==> Get(key).Some? && Get(key).value.JNum?
      ensures r.Some? ==> Get(key) == Some(JNum(r.value))
    {
      match Get(key)
      case Some(JNum(n)) => Some(n)
      case _ => None
    }

    /** The list of strings at `key`, if it is one. */
    function GetStrList(key: string): (r: Option<seq<string>>)
      ensures r.Some? ==> Get(key) == Some(JArr(Strings(r.value)))
    {
      match Get(key)
      case Some(JArr(items)) =>
        if forall k :: 0 <= k < |items| ==> items[k].JStr? then
          var r := seq(|items|, k requires 0 <= k < |items| => items[k].s);
          assert Strings(r) == items;
          Some(r)
        else None
      case _ => None
    }
  }

  /** A list of strings as a JSON array. */
  function Strings(ss: seq<string>): (r: seq<Json>)
    ensures |r| == |ss| && forall k :: 0 <= k < |ss| ==> r[k] == JStr(ss[k])
  {
    seq(|ss|, k requires 0 <= k < |ss| => JStr(ss[k]))
  }

  /** Reading back a list of strings written as a JSON array gives the same list. */
  lemma StrListRoundTrip(fields: map<string, Json>, key: string, ss: seq<string>)
    requires key in fields && fields[key] == JArr(Strings(ss))
    ensures JObj(fields).GetStrList(key) == Some(ss)
  {
    var items := Strings(ss);
    assert forall k :: 0 <= k < |items| ==> items[k].JStr?;
    var r := seq(|items|, k requires 0 <= k < |items| => items[k].s);
    assert r == ss;
  }
}
