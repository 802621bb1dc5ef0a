/** Provider ids of nodes: printing them, and the two ways to read them (instances.go, instances_v2.go, ccm_cloud.go). */
module ProviderId {
  import opened Wrappers

  const SCHEME := "aws://"

  // ---------- Strings with slashes ----------

  /** The position of the first slash, or the length when there is none. */
  function FirstSlash(s: string): (i: nat)
    ensures i <= |s| && '/' !in s[..i] && (i < |s| ==> s[i] == '/')
  {
    if s == "" || s[0] == '/' then 0
    else
      var i := 1 + FirstSlash(s[1..]);
      assert s[..i] == [s[0]] + s[1..][..i - 1];
      i
  }

  function Split(s: string): (tokens: seq<string>)
    ensures tokens != []
    decreases |s|
  {
    var i := FirstSlash(s);
    if i == |s| then [s] else [s[..i]] + Split(s[i + 1..])
  }

  function Last(s: string): string {
    Split(s)[|Split(s)| - 1]
  }

  lemma {:induction false} FirstSlashAfter(a: string, b: string)
    requires '/' !in a
    ensures FirstSlash(a + "/" + b) == |a| && FirstSlash(a) == |a|
  {
    if a == "" {
      assert (a + "/" + b)[0] == '/';
    } else {
      assert a[0] in a && (a + "/" + b)[0] == a[0];
      FirstSlashAfter(a[1..], b);
      assert (a + "/" + b)[1..] == a[1..] + "/" + b;
    }
  }

  lemma SplitAfter(a: string, b: string)
    requires '/' !in a
    ensures Split(a) == [a] && Split(a + "/" + b) == [a] + Split(b)
  {
    FirstSlashAfter(a, b);
    assert (a + "/" + b)[..|a|] == a && (a + "/" + b)[|a| + 1..] == b;
  }

  function Join(tokens: seq<string>): string
    requires tokens != []
  {
    if |tokens| == 1 then tokens[0] else tokens[0] + "/" + Join(tokens[1..])
  }

  /** Splitting undoes joining. */
  lemma {:induction false} SplitOfJoin(tokens: seq<string>)
    requires tokens != [] && forall t :: t in tokens ==> '/' !in t
    ensures Split(Join(tokens)) == tokens
  {
    if |tokens| == 1 {
      SplitAfter(tokens[0], "");
    } else {
      SplitOfJoin(tokens[1..]);
      SplitAfter(tokens[0], Join(tokens[1..]));
    }
  }

  /** Joining undoes splitting. */
  lemma {:induction false} JoinOfSplit(s: string)
    ensures Join(Split(s)) == s && forall t :: t in Split(s) ==> '/' !in t
    decreases |s|
  {
    var i := FirstSlash(s);
    if i < |s| {
      JoinOfSplit(s[i + 1..]);
      assert s == s[..i] + "/" + s[i + 1..];
      assert Split(s)[1..] == Split(s[i + 1..]);
    } else {
      assert s[..i] == s;
    }
  }

  lemma {:induction false} LastAfterFinalSlash(s: string)
    requires EndsInSlash(s)
    ensures Last(s) == ""
    decreases |s|
  {
    var i := FirstSlash(s);
    assert s[|s| - 1] in s && s[..|s|] == s;
    var rest := s[i + 1..];
    LastAfterSlash(s[..i], rest);
    assert s == s[..i] + "/" + rest;
    if rest != "" {
      assert rest[|rest| - 1] == s[|s| - 1];
      LastAfterFinalSlash(rest);
    } else {
      SplitAfter(rest, "");
    }
  }

  lemma LastAfterSlash(a: string, b: string)
    requires '/' !in a
    ensures Last(a + "/" + b) == Last(b)
  {
    SplitAfter(a, b);
  }

  predicate EndsInSlash(s: string) {
    s != "" && s[|s| - 1] == '/'
  }

  function TrimLeft(s: string): string {
    if s != "" && s[0] == '/' then TrimLeft(s[1..]) else s
  }

  function TrimRight(s: string): string {
    if s != "" && s[|s| - 1] == '/' then TrimRight(s[..|s| - 1]) else s
  }

  function Trim(s: string): string {
    TrimLeft(TrimRight(s))
  }

  function TrimPrefix(s: string, prefix: string): string {
    if prefix <= s then s[|prefix|..] else s
  }

  // ---------- Printing ----------

  function GetInstanceProviderIdV2(zone: string, id: string): Result<string> {
    if zone == "" then Err(Invalid("instance availability zone was not set"))
    else if id == "" then Err(Invalid("instance ID was not set"))
    else Ok("aws:///" + zone + "/" + id)
  }

  function InstancePath(zone: string, id: string): string {
    "/" + zone + "/" + id
  }

  // ---------- Reading ----------

  /** Characters a URL's path keeps as they are (section 3.3 of RFC 3986), and the slash. */
  predicate PathChar(c: char) {
    'a' <= c <= 'z' || 'A' <= c <= 'Z' || '0' <= c <= '9' || c in "-._~!$&'()*+,;=:@/"
  }

  /** Nothing to decode, and no authority after the scheme. */
  predicate PlainPath(s: string) {
    (forall c :: c in s ==> PathChar(c)) && (SCHEME <= s ==> SCHEME + "/" <= s)
  }

  /** The path of the URL, which a bare id is put into first. */
  function UrlPath(name: string): string
    requires PlainPath(name)
  {
    if SCHEME <= name then name[|SCHEME|..] else "//" + name
  }

  predicate LooksLikeInstance(id: string) {
    "i-" <= id && '/' !in id
  }

  function MapToAwsInstanceId(name: string): Result<string>
    requires PlainPath(name)
  {
    var tokens := Split(Trim(UrlPath(name)));
    var id := if |tokens| == 1 then tokens[0] else if |tokens| == 2 then tokens[1] else "";
    if id == "" || !LooksLikeInstance(id) then Err(Invalid("Invalid format for AWS instance")) else Ok(id)
  }

  function ParseInstanceIdFromProviderIdV2(providerId: string): string {
    var metadata := Split(TrimPrefix(providerId, SCHEME));
    if |metadata| == 1 then metadata[0]
    else if |metadata| == 2 then metadata[1]
    else if |metadata| == 3 then metadata[2]
    else ""
  }

  // ---------- Round trips ----------

  lemma {:induction false} TrimLeftKeepsLast(s: string)
    requires s != "" && s[|s| - 1] != '/'
    ensures Last(TrimLeft(s)) == Last(s) && TrimLeft(s) != ""
  {
    if s[0] == '/' {
      TrimLeftKeepsLast(s[1..]);
      SplitAfter("", s[1..]);
      assert s == "" + "/" + s[1..];
    }
  }

  /** Slashes before a string that neither begins nor ends with one do not count. */
  lemma TrimOfPlain(s: string)
    requires s != "" && s[0] != '/' && s[|s| - 1] != '/'
    ensures Trim("/" + s) == s && Trim("//" + s) == s && Trim("//" + ("/" + s)) == s
  {
    TrimOneSlash(s);
    var t := "/" + s;
    assert t[|t| - 1] == s[|s| - 1];
    TrimTwoSlashes(s);
    TrimTwoSlashes(t);
  }

  ghost predicate BothRecover(form: string, id: string) {
    PlainPath(form) && MapToAwsInstanceId(form) == Ok(id) && ParseInstanceIdFromProviderIdV2(form) == id
  }

  lemma ReadFromTokens(form: string, id: string)
    requires PlainPath(form) && LooksLikeInstance(id)
    requires var tokens := Split(Trim(UrlPath(form))); |tokens| <= 2 && tokens[|tokens| - 1] == id
    requires var tokens := Split(TrimPrefix(form, SCHEME)); |tokens| <= 3 && tokens[|tokens| - 1] == id
    ensures BothRecover(form, id)
  {
  }

  lemma WithoutScheme(form: string)
    requires PlainPath(form) && !(SCHEME <= form)
    ensures TrimPrefix(form, SCHEME) == form && UrlPath(form) == "//" + form
  {
  }

  lemma BareForm(zone: string, id: string)
    requires zone != "" && '/' !in zone && LooksLikeInstance(id)
    requires forall c :: c in zone + id ==> PathChar(c)
    ensures BothRecover(id, id)
  {
    FormsArePlain(zone, id);
    FormsSplit(zone, id);
    FormsTrim(zone, id);
    WithoutScheme(id);
    ReadFromTokens(id, id);
  }

  lemma PathForm(zone: string, id: string)
    requires zone != "" && '/' !in zone && LooksLikeInstance(id)
    requires forall c :: c in zone + id ==> PathChar(c)
    ensures BothRecover(InstancePath(zone, id), id)
  {
    FormsArePlain(zone, id);
    FormsSplit(zone, id);
    FormsTrim(zone, id);
    var form := InstancePath(zone, id);
    WithoutScheme(form);
    ReadFromTokens(form, id);
  }

  lemma UrlForm(zone: string, id: string)
    requires zone != "" && '/' !in zone && LooksLikeInstance(id)
    requires forall c :: c in zone + id ==> PathChar(c)
    ensures BothRecover(SCHEME + InstancePath(zone, id), id)
  {
    FormsArePlain(zone, id);
    FormsSplit(zone, id);
    FormsTrim(zone, id);
    var url := SCHEME + InstancePath(zone, id);
    assert url[|SCHEME|..] == InstancePath(zone, id);
    ReadFromTokens(url, id);
  }

  /** Both ways recover the instance id from every form the controller prints, and from the bare id. */
  lemma ProviderIdRoundTrip(zone: string, id: string)
    requires zone != "" && '/' !in zone && LooksLikeInstance(id)
    requires forall c :: c in zone + id ==> PathChar(c)
    ensures GetInstanceProviderIdV2(zone, id).Ok? && BothRecover(GetInstanceProviderIdV2(zone, id).value, id)
    ensures BothRecover(InstancePath(zone, id), id)
    ensures BothRecover(id, id)
  {
    BareForm(zone, id);
    PathForm(zone, id);
    UrlForm(zone, id);
    PrintedIsUrlForm(zone, id);
  }

  /** The ids the cloud gives, small letters, digits and dashes, survive in every printed form. */
  lemma UsualIdsRoundTrip(zone: string, id: string)
    requires |zone| > 0 && |id| >= 2 && id[0] == 'i' && id[1] == '-'
    requires forall c :: c in zone + id ==> 'a' <= c <= 'z' || '0' <= c <= '9' || c == '-'
    ensures GetInstanceProviderIdV2(zone, id) == Ok("aws:///" + zone + "/" + id)
    ensures forall form :: form in {"aws:///" + zone + "/" + id, "/" + zone + "/" + id, id} ==>
              PlainPath(form) && MapToAwsInstanceId(form) == Ok(id) && ParseInstanceIdFromProviderIdV2(form) == id
  {
    forall c | c in zone || c in id ensures c != '/' {
      assert c in zone + id;
    }
    assert "i-" <= id;
    ProviderIdRoundTrip(zone, id);
  }

  lemma PrintedIsUrlForm(zone: string, id: string)
    requires zone != "" && id != ""
    ensures GetInstanceProviderIdV2(zone, id) == Ok(SCHEME + InstancePath(zone, id))
  {
    assert SCHEME + "/" == "aws:///";
    assert SCHEME + "/" + zone + "/" + id == SCHEME + ("/" + zone + "/" + id);
  }

  lemma FormsSplit(zone: string, id: string)
    requires '/' !in zone && '/' !in id
    ensures Split(zone + "/" + id) == [zone, id] && Split(InstancePath(zone, id)) == ["", zone, id] && Split(id) == [id]
  {
    TwoTokens(zone, id);
    PathIsSlashBoth(zone, id);
    SplitAfterSlash(zone + "/" + id);
  }

  lemma TwoTokens(zone: string, id: string)
    requires '/' !in zone && '/' !in id
    ensures Split(zone + "/" + id) == [zone, id] && Split(id) == [id]
  {
    SplitAfter(id, "");
    SplitAfter(zone, id);
  }

  lemma PathIsSlashBoth(zone: string, id: string)
    ensures InstancePath(zone, id) == "/" + (zone + "/" + id)
  {
  }

  lemma SplitAfterSlash(s: string)
    ensures Split("/" + s) == [""] + Split(s)
  {
    SplitAfter("", s);
    assert "" + "/" + s == "/" + s;
  }

  lemma FormsTrim(zone: string, id: string)
    requires zone != "" && '/' !in zone && id != "" && '/' !in id
    ensures Trim(InstancePath(zone, id)) == zone + "/" + id && Trim("//" + InstancePath(zone, id)) == zone + "/" + id
    ensures Trim("//" + id) == id
  {
    var both := zone + "/" + id;
    assert zone[0] in zone && id[|id| - 1] in id && id[0] in id;
    assert both[0] == zone[0] && both[|both| - 1] == id[|id| - 1];
    assert InstancePath(zone, id) == "/" + both;
    TrimOfPlain(both);
    TrimOfPlain(id);
  }

  lemma FormsArePlain(zone: string, id: string)
    requires forall c :: c in zone + id ==> PathChar(c)
    requires LooksLikeInstance(id)
    ensures PlainPath(SCHEME + InstancePath(zone, id)) && PlainPath(InstancePath(zone, id)) && PlainPath(id)
    ensures !(SCHEME <= InstancePath(zone, id)) && !(SCHEME <= id)
  {
    assert InstancePath(zone, id)[0] == '/' && SCHEME[0] == 'a' && id[0] == 'i';
    forall c | c in id ensures PathChar(c) { assert c in zone + id; }
    forall c | c in zone ensures PathChar(c) { assert c in zone + id; }
    var url := SCHEME + InstancePath(zone, id);
    assert SCHEME + "/" <= url;
  }

  /**
   Where the first way finds an id, the second finds the same exactly when what follows the scheme has at
   most two slashes and does not end in one.
   */
  lemma ParsersAgreeIff(name: string)
    requires PlainPath(name) && MapToAwsInstanceId(name).Ok?
    ensures var rest := TrimPrefix(name, SCHEME);
            ParseInstanceIdFromProviderIdV2(name) == MapToAwsInstanceId(name).value
            <==> |Split(rest)| <= 3 && !EndsInSlash(rest)
  {
    var rest := TrimPrefix(name, SCHEME);
    SecondTakesLast(name);
    FirstTakesLast(name);
    TrimIgnoresPrefix(rest);
    if EndsInSlash(rest) {
      LastAfterFinalSlash(rest);
    } else if rest != "" {
      TrimLeftKeepsLast(rest);
    } else {
      SplitAfter("", "");
    }
  }

  /** The first way only finds ids that begin with i- and have no slash; the end of the name without final slashes. */
  lemma FoundIdLooksRight(name: string)
    requires PlainPath(name) && MapToAwsInstanceId(name).Ok?
    ensures var id := MapToAwsInstanceId(name).value;
            |id| >= 2 && id[0] == 'i' && id[1] == '-' && (forall c :: c in id ==> c != '/') && id == Last(Trim(UrlPath(name)))
  {
    FirstTakesLast(name);
  }

  lemma SecondTakesLast(name: string)
    ensures var rest := TrimPrefix(name, SCHEME);
            ParseInstanceIdFromProviderIdV2(name) == if |Split(rest)| <= 3 then Last(rest) else ""
  {
  }

  lemma FirstTakesLast(name: string)
    requires PlainPath(name) && MapToAwsInstanceId(name).Ok?
    ensures MapToAwsInstanceId(name).value == Last(Trim(UrlPath(name))) != ""
  {
  }

  lemma TrimIgnoresPrefix(rest: string)
    ensures !EndsInSlash(rest) ==> Trim(rest) == TrimLeft(rest) && Trim("//" + rest) == TrimLeft(rest)
  {
    if !EndsInSlash(rest) {
      TrimTwoSlashes(rest);
    }
  }

  lemma TrimOneSlash(rest: string)
    ensures TrimLeft("/" + rest) == TrimLeft(rest)
  {
    assert ("/" + rest)[1..] == rest;
  }

  lemma TrimTwoSlashes(rest: string)
    requires !EndsInSlash(rest)
    ensures Trim("//" + rest) == TrimLeft(rest)
  {
    var two := "//" + rest;
    if rest == "" {
      var one := two[..1];
      assert one == "/" && one[..0] == "" && TrimRight(one) == "";
      assert two[1] == '/' && TrimRight(two) == TrimRight(one);
    } else {
      assert two[|two| - 1] == rest[|rest| - 1] && two == "/" + ("/" + rest);
      assert TrimRight(two) == two;
      TrimOneSlash("/" + rest);
      TrimOneSlash(rest);
    }
  }
}
