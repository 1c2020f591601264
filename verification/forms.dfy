/**
 The browser's own check of a form before it fires `submit` (constraint
 validation in the HTML Standard): a `required` field left empty, or a
 non-empty `type="email"` field whose value is not a valid e-mail address,
 blocks the submission, and the page's submit handler never runs. The
 address grammar is the one the HTML Standard gives in its section
 "E-mail state (type=email)":
   1*( atext / "." ) "@" label *( "." label )
 where `atext` is RFC 5322's and a label is 1 to 63 letters, digits and
 hyphens that neither starts nor ends with a hyphen.
 */
module Forms {

  /** An ASCII letter or digit. */
  predicate IsLetDig(c: char) {
    'a' <= c <= 'z' || 'A' <= c <= 'Z' || '0' <= c <= '9'
  }

  /** A character allowed before the "@": RFC 5322 `atext`, or a dot. */
  predicate IsLocalChar(c: char) {
    IsLetDig(c) || c in "!#$%&'*+-/=?^_`{|}~."
  }

  /** A character allowed in a domain label. */
  predicate IsLabelChar(c: char) {
    IsLetDig(c) || c == '-'
  }

  /** One domain label. */
  predicate ValidLabel(l: string) {
    && 1 <= |l| <= 63
    && (forall i :: 0 <= i < |l| ==> IsLabelChar(l[i]))
    && l[0] != '-' && l[|l| - 1] != '-'
  }

  /** The position of the first `c` in `s`, or `|s|` when there is none. */
  function IndexOf(s: string, c: char): (k: nat)
    ensures k <= |s|
    ensures k < |s| ==> s[k] == c
    ensures forall i :: 0 <= i < k ==> s[i] != c
  {
    if |s| == 0 || s[0] == c then 0 else 1 + IndexOf(s[1..], c)
  }

  /** Labels separated by single dots. */
  predicate ValidDomain(d: string)
    decreases |d|
  {
    var k := IndexOf(d, '.');
    ValidLabel(d[..k]) && (k < |d| ==> ValidDomain(d[k + 1..]))
  }

  /** A valid e-mail address. No local character is an "@", so the local
      part ends at the first one. */
  predicate ValidEmail(s: string) {
    var k := IndexOf(s, '@');
    && 0 < k < |s|
    && (forall i :: 0 <= i < k ==> IsLocalChar(s[i]))
    && ValidDomain(s[k + 1..])
  }

  /** What `required` demands of a text field: a non-empty value. */
  predicate RequiredFilled(v: string) {
    v != ""
  }

  /** What `type="email"` demands: an empty value is not a type mismatch
      (only `required` refuses it); any other value must be an address. */
  predicate EmailConforms(v: string) {
    v == "" || ValidEmail(v)
  }

  /** A valid domain is non-empty, holds only label characters and dots,
      neither starts nor ends with a dot or a hyphen, and has no two dots
      in a row. */
  lemma {:induction false} DomainShape(d: string)
    requires ValidDomain(d)
    ensures |d| > 0
    ensures forall i :: 0 <= i < |d| ==> IsLabelChar(d[i]) || d[i] == '.'
    ensures d[0] != '.' && d[0] != '-' && d[|d| - 1] != '.' && d[|d| - 1] != '-'
    ensures forall i :: 0 <= i < |d| - 1 ==> d[i] != '.' || d[i + 1] != '.'
    decreases |d|
  {
    var k := IndexOf(d, '.');
    var l := d[..k];
    assert forall i :: 0 <= i < k ==> d[i] == l[i];
    if k < |d| {
      var rest := d[k + 1..];
      DomainShape(rest);
      assert forall i :: k < i < |d| ==> d[i] == rest[i - k - 1];
      assert d[|d| - 1] == rest[|rest| - 1];
      forall i | 0 <= i < |d| - 1
        ensures d[i] != '.' || d[i + 1] != '.'
      {
        if i < k {
          assert d[i] == l[i];
        } else if i == k {
          assert d[i + 1] == rest[0];
        } else {
          assert d[i] == rest[i - k - 1] && d[i + 1] == rest[i - k];
        }
      }
    } else {
      assert l == d;
    }
  }

  /** A single label is a domain, and a label, a dot and a domain make a
      domain. */
  lemma LabelIsDomain(l: string)
    requires ValidLabel(l)
    ensures ValidDomain(l)
  {
    assert IndexOf(l, '.') == |l|;
    assert l[..|l|] == l;
  }

  lemma DomainOfLabels(l: string, rest: string)
    requires ValidLabel(l) && ValidDomain(rest)
    ensures ValidDomain(l + "." + rest)
  {
    var d := l + "." + rest;
    assert forall i :: 0 <= i < |l| ==> d[i] == l[i] && d[i] != '.';
    assert d[|l|] == '.';
    assert IndexOf(d, '.') == |l|;
    assert d[..|l|] == l;
    assert d[|l| + 1..] == rest;
  }

  /** A valid address holds exactly one "@", with text on both sides. */
  lemma EmailShape(s: string)
    requires ValidEmail(s)
    ensures var k := IndexOf(s, '@');
      0 < k < |s| - 1 && s[k] == '@' && forall i :: 0 <= i < |s| && i != k ==> s[i] != '@'
  {
    var k := IndexOf(s, '@');
    var d := s[k + 1..];
    DomainShape(d);
    forall i | 0 <= i < |s| && i != k
      ensures s[i] != '@'
    {
      if i > k {
        assert s[i] == d[i - k - 1];
      }
    }
  }

  /** Conversely, a non-empty local part, an "@" and a valid domain make a
      valid address. */
  lemma EmailOfParts(local: string, domain: string)
    requires |local| > 0 && forall i :: 0 <= i < |local| ==> IsLocalChar(local[i])
    requires ValidDomain(domain)
    ensures ValidEmail(local + "@" + domain)
  {
    var s := local + "@" + domain;
    assert forall i :: 0 <= i < |local| ==> s[i] == local[i] && s[i] != '@';
    assert s[|local|] == '@';
    assert IndexOf(s, '@') == |local|;
    assert s[|local| + 1..] == domain;
  }

  /** Values without an "@" are never addresses: the browser refuses a
      non-empty one in an email field. */
  lemma NoAtNoEmail(s: string)
    requires forall i :: 0 <= i < |s| ==> s[i] != '@'
    ensures !ValidEmail(s)
    ensures s != "" ==> !EmailConforms(s)
  {
    if ValidEmail(s) {
      EmailShape(s);
    }
  }

  /** Sample values: a usual address and a dotless domain pass; "abc", a
      missing local part, a missing domain and an empty label do not. */
  lemma UsualAddressIsValid()
    ensures ValidEmail("ana@tienda.com")
  {
    var tld, host, local := "com", "tienda", "ana";
    assert ValidLabel(tld) && ValidLabel(host);
    LabelIsDomain(tld);
    DomainOfLabels(host, tld);
    var domain := host + "." + tld;
    assert forall i :: 0 <= i < |local| ==> IsLocalChar(local[i]);
    EmailOfParts(local, domain);
    var e := local + "@" + domain;
    assert ValidEmail(e);
    assert e == "ana@tienda.com";
  }

  lemma DotlessDomainIsValid()
    ensures ValidEmail("a@b")
  {
    LabelIsDomain("b");
    EmailOfParts("a", "b");
    assert "a" + "@" + "b" == "a@b";
  }

  lemma MalformedAddresses()
    ensures !ValidEmail("abc")
    ensures !ValidEmail("@tienda.com")
    ensures !ValidEmail("ana@")
  {
    NoAtNoEmail("abc");
    assert IndexOf("@tienda.com", '@') == 0;
    var s := "ana@";
    assert s[3] == '@' && s[0] != '@' && s[1] != '@' && s[2] != '@';
    assert IndexOf(s, '@') == 3;
  }

  lemma EmptyLabelIsInvalid()
    ensures !ValidEmail("ana@tienda..com")
  {
    var s := "ana@tienda..com";
    assert s[3] == '@' && s[0] != '@' && s[1] != '@' && s[2] != '@';
    assert IndexOf(s, '@') == 3;
    var d := s[4..];
    assert d[6] == '.' && d[7] == '.';
    if ValidEmail(s) {
      DomainShape(d);
    }
  }
}
