/** Reading the output of `oc adm policy who-can use scc <name> -A`, which both
    scripts do the same way: split the output into lines, keep the lines that
    mention a service account, split such a line at ':' and take the third and
    fourth fields as namespace and name. */
module WhoCan {
  import opened Text

  /** A line naming a service account user contains this. */
  const ServiceAccountMarker: string := "system:serviceaccount:"

  /** What a line yields. */
  datatype LineParse =
    | NotServiceAccount
    | ServiceAccountRef(namespace: string, name: string)
      /** the line has the marker but fewer than four ':'-separated fields:
          reading the fourth field raises IndexError and stops the script */
    | TooFewFields

  /** `info.split('\n')` */
  function Lines(output: string): seq<string>
  {
    Split(output, '\n')
  }

  /** One line: ignored without the marker, otherwise fields 2 and 3 of its
      ':'-split. The namespace and name never hold a ':'. */
  function ParseLine(line: string): (r: LineParse)
    ensures r.NotServiceAccount? <==> !Contains(line, ServiceAccountMarker)
    ensures r.ServiceAccountRef? ==> ':' !in r.namespace && ':' !in r.name
  {
    if !Contains(line, ServiceAccountMarker) then NotServiceAccount
    else
      var fields := Split(line, ':');
      if |fields| < 4 then TooFewFields else ServiceAccountRef(fields[2], fields[3])
  }

  /** Four fields joined with ':' between them. */
  lemma JoinFour(a: string, b: string, c: string, d: string)
    ensures Join([a, b, c, d], ':') == a + ":" + b + ":" + c + ":" + d
  {
    assert [c, d][1..] == [d];
    assert Join([c, d], ':') == c + ":" + d;
    assert [b, c, d][1..] == [c, d];
    assert Join([b, c, d], ':') == b + ":" + (c + ":" + d);
    assert [a, b, c, d][1..] == [b, c, d];
    assert Join([a, b, c, d], ':') == a + ":" + (b + ":" + (c + ":" + d));
  }

  lemma MarkerFields()
    ensures ServiceAccountMarker == "system" + ":" + "serviceaccount" + ":"
  {
  }

  /** Regrouping a prefix followed by four pieces. */
  lemma RegroupFour(p: string, a: string, b: string, c: string, d: string)
    ensures p + (a + b + c + d) == p + a + b + c + d
  {
  }

  /** Regrouping a prefix followed by three pieces. */
  lemma RegroupThree(p: string, a: string, b: string, c: string)
    ensures p + (a + b + c) == p + a + b + c
  {
  }

  /** A user line as the command prints it, an indent followed by
      `system:serviceaccount:<namespace>:<name>`, yields that namespace and name. */
  lemma ParseUserLine(indent: string, namespace: string, name: string)
    requires ':' !in indent && ':' !in namespace && ':' !in name
    ensures ParseLine(indent + ServiceAccountMarker + namespace + ":" + name)
         == ServiceAccountRef(namespace, name)
  {
    var line := indent + ServiceAccountMarker + namespace + ":" + name;
    var parts := [indent + "system", "serviceaccount", namespace, name];
    MarkerFields();
    RegroupFour(indent, "system", ":", "serviceaccount", ":");
    JoinFour(indent + "system", "serviceaccount", namespace, name);
    assert line == Join(parts, ':');
    SplitJoin(parts, ':');
    RegroupThree(indent + ServiceAccountMarker, namespace, ":", name);
    ContainsMiddle(indent, ServiceAccountMarker, namespace + ":" + name);
  }

  /** A user line that carries a ':'-terminated heading in front of the user
      (as the first user after `Users:` does) shifts the fields by one: the
      namespace read is "serviceaccount" and the name read is the real namespace. */
  lemma ParseHeadedUserLine(heading: string, indent: string, namespace: string, name: string)
    requires ':' !in heading && ':' !in indent && ':' !in namespace && ':' !in name
    ensures ParseLine(heading + ":" + indent + ServiceAccountMarker + namespace + ":" + name)
         == ServiceAccountRef("serviceaccount", namespace)
  {
    var pre := heading + ":" + indent;
    var line := pre + ServiceAccountMarker + namespace + ":" + name;
    var tail := indent + ServiceAccountMarker + namespace + ":" + name;
    var parts := [heading, indent + "system", "serviceaccount", namespace, name];
    MarkerFields();
    RegroupFour(indent, "system", ":", "serviceaccount", ":");
    JoinFour(indent + "system", "serviceaccount", namespace, name);
    assert parts[1..] == [indent + "system", "serviceaccount", namespace, name];
    assert Join(parts[1..], ':') == tail;
    assert Join(parts, ':') == heading + ":" + tail;
    assert heading + ":" + tail == line by {
      RegroupFour(heading + ":", indent + ServiceAccountMarker, namespace, ":", name);
      RegroupThree(heading, ":", indent, ServiceAccountMarker);
    }
    SplitJoin(parts, ':');
    RegroupThree(pre + ServiceAccountMarker, namespace, ":", name);
    ContainsMiddle(pre, ServiceAccountMarker, namespace + ":" + name);
  }
}
