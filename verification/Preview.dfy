/** Preview hostnames: `preview-<name>.<tenant domain>` stands in for `<name>.<tenant domain>`, and for nothing else. */
module Preview {
  import opened Options
  import opened Access

  const PREFIX := "preview-"

  /** The text before the first dot and the text after it, or None without a dot. */
  function CutDot(s: string): (r: Option<(string, string)>)
    ensures r.None? <==> '.' !in s
    ensures r.Some? ==> '.' !in r.value.0 && s == r.value.0 + "." + r.value.1
  {
    if s == "" then None
    else if s[0] == '.' then Some(("", s[1..]))
    else
      match CutDot(s[1..])
      case None => None
      case Some(cut) => Some(([s[0]] + cut.0, cut.1))
  }

  function PreviewBase(host: string, tenantDomain: string): Option<string> {
    match CutDot(Fold(host))
    case None => None
    case Some(cut) =>
      if tenantDomain == "" || cut.1 != Fold(tenantDomain) || !(PREFIX <= cut.0) || cut.0 == PREFIX then None
      else Some(cut.0[|PREFIX|..] + "." + cut.1)
  }

  lemma {:induction false} CutUnique(name: string, rest: string)
    requires '.' !in name
    ensures CutDot(name + "." + rest) == Some((name, rest))
  {
    var s := name + "." + rest;
    if name == "" {
      assert s == "." + rest;
    } else {
      CutUnique(name[1..], rest);
      assert s[1..] == name[1..] + "." + rest;
      assert [name[0]] + name[1..] == name;
    }
  }

  /** A hostname previews exactly one app of the tenant domain, and one under any other domain previews none. */
  lemma PreviewsExactly(host: string, tenantDomain: string, base: string)
    ensures PreviewBase(host, tenantDomain) == Some(base) <==>
      && tenantDomain != ""
      && exists name ::
           && name != "" && '.' !in name
           && Fold(host) == PREFIX + name + "." + Fold(tenantDomain)
           && base == name + "." + Fold(tenantDomain)
  {
    var domain := Fold(tenantDomain);
    if PreviewBase(host, tenantDomain) == Some(base) {
      var (name, rest) := CutDot(Fold(host)).value;
      var own := name[|PREFIX|..];
      assert name == PREFIX + own;
      assert '.' !in own && own != "" && base == own + "." + domain;
    }
    if name :| name != "" && '.' !in name && Fold(host) == PREFIX + name + "." + domain
                && base == name + "." + domain && tenantDomain != "" {
      CutUnique(PREFIX + name, domain);
      assert (PREFIX + name)[|PREFIX|..] == name;
    }
  }
}
