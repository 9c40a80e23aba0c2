/** Robot names and who owns them (bridge/controlplane/harbor/naming.go, bridge/controlplane/contract.go). */
module Naming {
  import opened Text

  const PREFIX := "bridge-"
  const CAP: nat := 240
  const HASH_LEN: nat := 16

  predicate Alnum(c: char) { 'a' <= c <= 'z' || '0' <= c <= '9' }

  /** A DNS label of any length, as cluster, namespace and ServiceAccount names are: no dots. */
  predicate Label(s: string) {
    && s != "" && Alnum(s[0]) && Alnum(s[|s| - 1])
    && forall i :: 0 <= i < |s| ==> Alnum(s[i]) || s[i] == '-'
  }

  predicate NoDot(s: string) { '.' !in s }

  /** The hash that tells truncated names apart: sixteen characters, no dot. */
  ghost predicate DigestLike(digest: string -> string) {
    forall s :: |digest(s)| == HASH_LEN && Label(digest(s))
  }

  // ---- Names -----------------------------------------------------------------------------------

  function ClusterPrefix(cluster: string): string { PREFIX + cluster + "." }

  function Natural(cluster: string, ns: string, sa: string): string { ClusterPrefix(cluster) + ns + "." + sa }

  predicate Sep(c: char) { c == '-' || c == '.' || c == '_' }

  function TrimSeps(s: string): string {
    if s != "" && Sep(s[|s| - 1]) then TrimSeps(s[..|s| - 1]) else s
  }

  function Budget(cluster: string): int { CAP - |ClusterPrefix(cluster)| - 1 - HASH_LEN }

  /** What is left of namespace and ServiceAccount in a name that is too long. */
  function Middle(cluster: string, ns: string, sa: string): string
    requires Budget(cluster) >= 1
  {
    var mid := ns + "." + sa;
    TrimSeps(if |mid| > Budget(cluster) then mid[..Budget(cluster)] else mid)
  }

  predicate Truncated(cluster: string, ns: string, sa: string) { |Natural(cluster, ns, sa)| > CAP }

  function RobotName(cluster: string, ns: string, sa: string, digest: string -> string): Option<string> {
    var full := Natural(cluster, ns, sa);
    if !Truncated(cluster, ns, sa) then Some(full)
    else if Budget(cluster) < 1 then None
    else
      var mid := Middle(cluster, ns, sa);
      if mid == "" then Some(ClusterPrefix(cluster) + digest(full))
      else Some(ClusterPrefix(cluster) + mid + "." + digest(full))
  }

  // ---- Fields ----------------------------------------------------------------------------------

  /** What comes before the first dot, and after it, is unique. */
  lemma DotSplit(a: string, x: string, b: string, y: string)
    requires NoDot(a) && NoDot(b) && a + "." + x == b + "." + y
    ensures a == b && x == y
  {
    var s := a + "." + x;
    assert s[|a|] == '.' && s[|b|] == '.';
    assert forall i :: 0 <= i < |a| ==> s[i] == a[i];
    assert forall i :: 0 <= i < |b| ==> s[i] == b[i];
    assert a == s[..|a|] && b == s[..|b|];
    assert x == s[|a| + 1..] && y == s[|b| + 1..];
  }

  lemma {:induction false} TrimKeeps(s: string, p: nat)
    requires p < |s| && !Sep(s[p])
    ensures p < |TrimSeps(s)| <= |s| && TrimSeps(s) == s[..|TrimSeps(s)|]
  {
    if Sep(s[|s| - 1]) {
      TrimKeeps(s[..|s| - 1], p);
      assert s[..|s| - 1][..|TrimSeps(s)|] == s[..|TrimSeps(s)|];
    } else {
      assert s[..|s|] == s;
    }
  }

  /** A cut that falls inside the ServiceAccount name leaves the namespace and a part of it. */
  lemma MiddleParts(cluster: string, ns: string, sa: string) returns (j: nat)
    requires Label(ns) && Label(sa) && Truncated(cluster, ns, sa) && |ns| + 2 <= Budget(cluster)
    ensures 1 <= j <= |sa| && Middle(cluster, ns, sa) == ns + "." + sa[..j]
  {
    var mid, p := ns + "." + sa, |ns| + 1;
    var cut := mid[..Budget(cluster)];
    assert mid[p] == sa[0] && cut[p] == sa[0];
    TrimKeeps(cut, p);
    var t := TrimSeps(cut);
    j := |t| - p;
    assert t == mid[..|t|] == ns + "." + sa[..j];
  }

  /** Every name is the cluster, the namespace and a tail, with dots between them; the tail of a
      truncated name has a dot of its own. */
  lemma NameParts(cluster: string, ns: string, sa: string, digest: string -> string) returns (tail: string, j: nat)
    requires Label(cluster) && Label(ns) && Label(sa) && (Truncated(cluster, ns, sa) ==> |ns| + 2 <= Budget(cluster))
    ensures RobotName(cluster, ns, sa, digest) == Some(PREFIX + cluster + "." + (ns + "." + tail))
    ensures if Truncated(cluster, ns, sa) then j <= |sa| && tail == sa[..j] + "." + digest(Natural(cluster, ns, sa)) else tail == sa
  {
    var head := PREFIX + cluster + ".";
    if Truncated(cluster, ns, sa) {
      j := MiddleParts(cluster, ns, sa);
      var d := digest(Natural(cluster, ns, sa));
      tail := sa[..j] + "." + d;
      assert head + (ns + "." + sa[..j]) + "." + d == head + (ns + "." + tail);
    } else {
      j, tail := 0, sa;
      assert head + ns + "." + sa == head + (ns + "." + sa);
    }
  }

  lemma LabelNoDot(s: string)
    requires Label(s)
    ensures NoDot(s) && NoDot(PREFIX + s)
  {
    assert NoDot(PREFIX);
  }

  lemma SameHead(a: string, x: string, b: string, y: string)
    requires Label(a) && Label(b) && PREFIX + a + "." + x == PREFIX + b + "." + y
    ensures a == b && x == y
  {
    LabelNoDot(a);
    LabelNoDot(b);
    DotSplit(PREFIX + a, x, PREFIX + b, y);
    assert (PREFIX + a)[|PREFIX|..] == a && (PREFIX + b)[|PREFIX|..] == b;
  }

  /** Two identities, neither cut inside its namespace, share a robot name only if they are the
      same, or both are truncated and their digests are equal. */
  lemma NamesAreInjective(c1: string, n1: string, s1: string, c2: string, n2: string, s2: string, digest: string -> string)
    requires Label(c1) && Label(n1) && Label(s1) && Label(c2) && Label(n2) && Label(s2)
    requires Truncated(c1, n1, s1) ==> |n1| + 2 <= Budget(c1)
    requires Truncated(c2, n2, s2) ==> |n2| + 2 <= Budget(c2)
    requires DigestLike(digest)
    requires RobotName(c1, n1, s1, digest) == RobotName(c2, n2, s2, digest)
    ensures c1 == c2 && n1 == n2
    ensures s1 == s2 || (Truncated(c1, n1, s1) && Truncated(c2, n2, s2) && digest(Natural(c1, n1, s1)) == digest(Natural(c2, n2, s2)))
  {
    var t1, j1 := NameParts(c1, n1, s1, digest);
    var t2, j2 := NameParts(c2, n2, s2, digest);
    SameHead(c1, n1 + "." + t1, c2, n2 + "." + t2);
    LabelNoDot(n1);
    LabelNoDot(n2);
    DotSplit(n1, t1, n2, t2);
    SameTails(s1, t1, Truncated(c1, n1, s1), j1, digest(Natural(c1, n1, s1)), s2, t2, Truncated(c2, n2, s2), j2, digest(Natural(c2, n2, s2)));
  }

  lemma SameTails(s1: string, t1: string, cut1: bool, j1: nat, d1: string, s2: string, t2: string, cut2: bool, j2: nat, d2: string)
    requires Label(s1) && Label(s2) && t1 == t2
    requires if cut1 then j1 <= |s1| && t1 == s1[..j1] + "." + d1 else t1 == s1
    requires if cut2 then j2 <= |s2| && t2 == s2[..j2] + "." + d2 else t2 == s2
    ensures cut1 == cut2 && (if cut1 then d1 == d2 else s1 == s2)
  {
    LabelNoDot(s1);
    LabelNoDot(s2);
    assert (cut1 ==> t1[j1] == '.') && (cut2 ==> t2[j2] == '.');
    if cut1 && cut2 { DotSplit(s1[..j1], d1, s2[..j2], d2); }
  }

  /** The limit on the cut is exact: when it reaches the namespace, the name is also that of
      another identity, whose ServiceAccount is called like the digest. */
  lemma CutNamespaceCollides(cluster: string, ns: string, sa: string, digest: string -> string) returns (other: string)
    requires Label(cluster) && Label(ns) && Label(sa) && DigestLike(digest)
    requires Budget(cluster) >= 1 && |ns| + 1 >= Budget(cluster) && Truncated(cluster, ns, sa)
    ensures var d := digest(Natural(cluster, ns, sa));
            && RobotName(cluster, ns, sa, digest) == RobotName(cluster, other, d, digest)
            && (other, d) != (ns, sa)
  {
    var mid, d := ns + "." + sa, digest(Natural(cluster, ns, sa));
    var cut := mid[..Budget(cluster)];
    assert cut[0] == ns[0];
    TrimKeeps(cut, 0);
    other := TrimSeps(cut);
    assert other == Middle(cluster, ns, sa);
    var name := ClusterPrefix(cluster) + other + "." + d;
    assert Natural(cluster, other, d) == name && |name| <= CAP;
    if other == ns { assert |sa| > HASH_LEN; }
  }

  /** No name is longer than Harbor allows. */
  lemma NamesFit(cluster: string, ns: string, sa: string, digest: string -> string)
    requires DigestLike(digest) && RobotName(cluster, ns, sa, digest).Some?
    ensures |RobotName(cluster, ns, sa, digest).value| <= CAP
  {
    if Truncated(cluster, ns, sa) {
      var mid := ns + "." + sa;
      TrimShortens(if |mid| > Budget(cluster) then mid[..Budget(cluster)] else mid);
    }
  }

  lemma {:induction false} TrimShortens(s: string)
    ensures |TrimSeps(s)| <= |s|
  {
    if s != "" && Sep(s[|s| - 1]) { TrimShortens(s[..|s| - 1]); }
  }

  // ---- Ownership -------------------------------------------------------------------------------

  predicate OwnsRobot(cluster: string, name: string) { cluster != "" && HasPrefix(name, ClusterPrefix(cluster)) }

  predicate OwnsLegacyRobot(cluster: string, name: string) {
    && cluster != "" && HasPrefix(name, PREFIX + cluster + "-")
    && var rest := name[|PREFIX + cluster + "-"|..];
    rest != "" && NoDot(rest)
  }

  /** Every name begins with its cluster's prefix, whatever was truncated. */
  lemma NameHead(cluster: string, ns: string, sa: string, digest: string -> string) returns (rest: string)
    requires RobotName(cluster, ns, sa, digest).Some?
    ensures RobotName(cluster, ns, sa, digest).value == PREFIX + cluster + "." + rest
  {
    var d := digest(Natural(cluster, ns, sa));
    if !Truncated(cluster, ns, sa) {
      rest := ns + "." + sa;
    } else if Middle(cluster, ns, sa) == "" {
      rest := d;
    } else {
      rest := Middle(cluster, ns, sa) + "." + d;
    }
    assert RobotName(cluster, ns, sa, digest).value == ClusterPrefix(cluster) + rest;
  }

  /** A robot name is owned by its own cluster and no other, and is nobody's legacy name. */
  lemma OwnedByItsClusterOnly(cluster: string, ns: string, sa: string, digest: string -> string, other: string)
    requires Label(cluster) && Label(other) && RobotName(cluster, ns, sa, digest).Some?
    ensures var name := RobotName(cluster, ns, sa, digest).value;
            (OwnsRobot(other, name) <==> other == cluster) && !OwnsLegacyRobot(other, name)
  {
    var name := RobotName(cluster, ns, sa, digest).value;
    var rest := NameHead(cluster, ns, sa, digest);
    if OwnsRobot(other, name) {
      var y := name[|ClusterPrefix(other)|..];
      assert name == PREFIX + other + "." + y;
      SameHead(cluster, rest, other, y);
    }
    if OwnsLegacyRobot(other, name) { LegacyHasNoDot(cluster, rest, other, name); }
  }

  lemma LegacyHasNoDot(cluster: string, rest: string, other: string, name: string)
    requires Label(cluster) && Label(other) && name == PREFIX + cluster + "." + rest
    ensures !OwnsLegacyRobot(other, name)
  {
    var head, at := PREFIX + other + "-", |PREFIX + cluster|;
    LabelNoDot(other);
    assert name[at] == '.' && NoDot(head);
    assert HasPrefix(name, head) ==> forall i :: 0 <= i < |head| ==> name[i] == head[i];
    assert |head| <= at ==> name[|head|..][at - |head|] == '.';
  }

  // ---- Names Harbor accepts ----------------------------------------------------------------------

  /** No two separators side by side. */
  predicate Single(s: string) { forall i :: 0 <= i < |s| - 1 ==> Alnum(s[i]) || Alnum(s[i + 1]) }

  /** Letters, digits and separators, with a letter or digit at both ends. */
  predicate Shaped(s: string) {
    s != "" && Alnum(s[0]) && Alnum(s[|s| - 1]) && forall i :: 0 <= i < |s| ==> Alnum(s[i]) || Sep(s[i])
  }

  predicate Accepted(s: string) { Shaped(s) && Single(s) }

  /** What a name says of namespace and ServiceAccount: all, or what the cut leaves. */
  function Kept(cluster: string, ns: string, sa: string): string {
    if Truncated(cluster, ns, sa) && Budget(cluster) >= 1 then Middle(cluster, ns, sa) else ns + "." + sa
  }

  /** Two parts around a separator are accepted together if and only if both are. */
  lemma JoinIs(a: string, c: char, b: string)
    requires Shaped(a) && Sep(c) && Shaped(b)
    ensures Shaped(a + [c] + b)
    ensures Single(a + [c] + b) <==> Single(a) && Single(b)
  {
    var s, n := a + [c] + b, |a|;
    assert s[n] == c && forall i :: 0 <= i < n ==> s[i] == a[i];
    assert forall i :: n < i < |s| ==> s[i] == b[i - n - 1];
    if Single(s) {
      forall i | 0 <= i < |a| - 1 ensures Alnum(a[i]) || Alnum(a[i + 1]) { assert s[i] == a[i] && s[i + 1] == a[i + 1]; }
      forall i | 0 <= i < |b| - 1 ensures Alnum(b[i]) || Alnum(b[i + 1]) {
        assert s[n + 1 + i] == b[i] && s[n + 1 + i + 1] == b[i + 1];
      }
    }
  }

  lemma {:induction false} TrimEnds(s: string)
    ensures TrimSeps(s) == "" || !Sep(TrimSeps(s)[|TrimSeps(s)| - 1])
  {
    if s != "" && Sep(s[|s| - 1]) { TrimEnds(s[..|s| - 1]); }
  }

  /** The cut leaves a part that begins and ends with a letter or digit. */
  lemma KeptEnds(cluster: string, ns: string, sa: string)
    requires Label(ns) && Label(sa)
    ensures Shaped(Kept(cluster, ns, sa))
  {
    var mid := ns + "." + sa;
    assert forall i :: 0 <= i < |mid| ==> Alnum(mid[i]) || Sep(mid[i]);
    if Truncated(cluster, ns, sa) && Budget(cluster) >= 1 {
      var cut := if |mid| > Budget(cluster) then mid[..Budget(cluster)] else mid;
      assert cut[0] == ns[0];
      TrimKeeps(cut, 0);
      TrimEnds(cut);
      assert forall i :: 0 <= i < |TrimSeps(cut)| ==> TrimSeps(cut)[i] == mid[i];
    }
  }

  lemma HeadIs(cluster: string)
    requires Label(cluster)
    ensures Shaped(PREFIX + cluster) && (Single(PREFIX + cluster) <==> Single(cluster))
  {
    assert Accepted("bridge");
    JoinIs("bridge", '-', cluster);
    assert "bridge" + ['-'] + cluster == PREFIX + cluster;
  }

  /** Exactly which robot names Harbor accepts: those of identities without consecutive hyphens in
      the cluster and in what the name keeps of namespace and ServiceAccount. */
  lemma AcceptedExactly(cluster: string, ns: string, sa: string, digest: string -> string)
    requires Label(cluster) && Label(ns) && Label(sa)
    requires DigestLike(digest) && Single(digest(Natural(cluster, ns, sa))) && RobotName(cluster, ns, sa, digest).Some?
    ensures Accepted(RobotName(cluster, ns, sa, digest).value) <==> Single(cluster) && Single(Kept(cluster, ns, sa))
  {
    var k, d := Kept(cluster, ns, sa), digest(Natural(cluster, ns, sa));
    KeptEnds(cluster, ns, sa);
    HeadIs(cluster);
    JoinIs(PREFIX + cluster, '.', k);
    if Truncated(cluster, ns, sa) {
      JoinIs(PREFIX + cluster + "." + k, '.', d);
    } else {
      assert PREFIX + cluster + "." + k == Natural(cluster, ns, sa);
    }
  }

  // ---- Descriptions ------------------------------------------------------------------------------

  const TAG := "managed-by=harbor-workload-identity-bridge"
  const SUSPENDED := "suspended=true"

  function ClusterToken(cluster: string): string { "cluster=" + cluster }

  function AccessToken(ns: string, name: string): string { "harboraccess=" + (ns + "/" + name) }

  /** The description of a robot of a HarborAccess: the tag, the cluster and the HarborAccess,
      with spaces between them. */
  function Description(cluster: string, ns: string, name: string): string {
    Unwords([TAG, ClusterToken(cluster), AccessToken(ns, name)])
  }

  function SuspendedDescription(cluster: string, ns: string, name: string): string {
    Unwords([TAG, ClusterToken(cluster), AccessToken(ns, name), SUSPENDED])
  }

  /** What stands before and after the first c. */
  function Cut(s: string, c: char): Option<(string, string)> {
    if s == "" then None
    else if s[0] == c then Some(("", s[1..]))
    else
      match Cut(s[1..], c)
      case None => None
      case Some(p) => Some(([s[0]] + p.0, p.1))
  }

  /** The value of a token with this key: what follows the first "=", if the key stands before it. */
  function ValueOf(token: string, key: string): Option<string> {
    if HasPrefix(token, key + "=") then Some(token[|key| + 1..]) else None
  }

  /** The value of the first token with this key. */
  function FirstValue(tokens: seq<string>, key: string): Option<string> {
    if tokens == [] then None
    else if ValueOf(tokens[0], key).Some? then ValueOf(tokens[0], key)
    else FirstValue(tokens[1..], key)
  }

  predicate BelongsToCluster(description: string, cluster: string) {
    HasPrefix(description, TAG + " ") && FirstValue(Words(description), "cluster") == Some(cluster)
  }

  /** The HarborAccess of the first token that names one. */
  function AccessOf(tokens: seq<string>): Option<(string, string)> {
    if tokens == [] then None
    else
      var v := ValueOf(tokens[0], "harboraccess");
      var access := if v.Some? then Cut(v.value, '/') else None;
      if access.Some? && access.value.0 != "" && access.value.1 != "" then access else AccessOf(tokens[1..])
  }

  function ParseDescription(description: string): Option<(string, string)> {
    if HasPrefix(description, TAG + " ") then AccessOf(Words(description)) else None
  }

  predicate IsSuspended(description: string) { HasPrefix(description, TAG + " ") && SUSPENDED in Words(description) }

  /** The three layers of ownership: the name, the cluster and the HarborAccess. */
  predicate OwnedBy(cluster: string, name: string, description: string, ns: string, access: string) {
    && (OwnsRobot(cluster, name) || OwnsLegacyRobot(cluster, name))
    && BelongsToCluster(description, cluster)
    && ParseDescription(description) == Some((ns, access))
  }

  lemma {:induction false} CutAt(k: string, c: char, v: string)
    requires c !in k
    ensures Cut(k + [c] + v, c) == Some((k, v))
  {
    var s := k + [c] + v;
    if k == "" {
      assert s[1..] == v;
    } else {
      assert s[1..] == k[1..] + [c] + v;
      CutAt(k[1..], c, v);
      assert [k[0]] + k[1..] == k;
    }
  }

  lemma WordsJoin(key: string, s: string)
    requires IsWord(key) && IsWord(s)
    ensures IsWord(key + s)
  {
    var w := key + s;
    assert forall k :: 0 <= k < |w| ==> w[k] == if k < |key| then key[k] else s[k - |key|];
  }

  lemma LabelIsWord(s: string)
    requires Label(s)
    ensures IsWord(s) && '/' !in s
  {
  }

  lemma TokensAreWords(cluster: string, ns: string, name: string)
    requires Label(cluster) && Label(ns) && IsWord(name)
    ensures IsWord(TAG) && IsWord(SUSPENDED) && IsWord(ClusterToken(cluster)) && IsWord(AccessToken(ns, name))
  {
    assert IsWord("cluster=") && IsWord("harboraccess=") && IsWord("/");
    LabelIsWord(cluster);
    LabelIsWord(ns);
    WordsJoin("cluster=", cluster);
    WordsJoin("harboraccess=", ns);
    WordsJoin("/", name);
    WordsJoin("harboraccess=" + ns, "/" + name);
    assert AccessToken(ns, name) == ("harboraccess=" + ns) + ("/" + name);
  }

  lemma {:induction false} CutGives(s: string, c: char)
    ensures match Cut(s, c)
            case None => c !in s
            case Some(p) => c !in p.0 && s == p.0 + [c] + p.1
  {
    if s != "" && s[0] != c {
      CutGives(s[1..], c);
      assert s == [s[0]] + s[1..];
    }
  }

  /** Looking for "key=" at the front is cutting at the first "=" and comparing the key. */
  lemma ValueIsCut(token: string, key: string)
    requires '=' !in key
    ensures ValueOf(token, key).Some? <==> Cut(token, '=').Some? && Cut(token, '=').value.0 == key
    ensures ValueOf(token, key).Some? ==> ValueOf(token, key).value == Cut(token, '=').value.1
  {
    if HasPrefix(token, key + "=") {
      var v := token[|key| + 1..];
      assert token == key + ['='] + v;
      CutAt(key, '=', v);
    }
    CutGives(token, '=');
  }

  lemma KeysOfTokens(cluster: string, ns: string, name: string)
    ensures ValueOf(TAG, "cluster").None? && ValueOf(TAG, "harboraccess").None?
    ensures ValueOf(ClusterToken(cluster), "cluster") == Some(cluster) && ValueOf(ClusterToken(cluster), "harboraccess").None?
    ensures ValueOf(AccessToken(ns, name), "harboraccess") == Some(ns + "/" + name)
  {
    assert TAG[0] == 'm' && ("cluster" + "=")[0] == 'c' && ("harboraccess" + "=")[0] == 'h';
    assert ClusterToken(cluster)[0] == 'c';
  }

  /** The tokens of a description, with or without a last one, are read as they were written. */
  lemma TokensRead(cluster: string, ns: string, name: string, more: seq<string>)
    requires Label(ns) && name != ""
    ensures var tokens := [TAG, ClusterToken(cluster), AccessToken(ns, name)] + more;
            FirstValue(tokens, "cluster") == Some(cluster) && AccessOf(tokens) == Some((ns, name))
  {
    KeysOfTokens(cluster, ns, name);
    assert Cut(ns + "/" + name, '/') == Some((ns, name)) by {
      LabelIsWord(ns);
      CutAt(ns, '/', name);
    }
    var tokens := [TAG, ClusterToken(cluster), AccessToken(ns, name)] + more;
    var rest := [ClusterToken(cluster), AccessToken(ns, name)] + more;
    assert tokens[1..] == rest && rest[1..] == [AccessToken(ns, name)] + more;
    assert AccessOf(rest[1..]) == Some((ns, name));
  }

  lemma TagFirst(tokens: seq<string>)
    requires |tokens| >= 2 && tokens[0] == TAG
    ensures HasPrefix(Unwords(tokens), TAG + " ")
  {
  }

  /** A description is read back as what it was written from; only the suspended one is suspended. */
  lemma DescriptionReadsBack(cluster: string, ns: string, name: string, other: string)
    requires Label(cluster) && Label(ns) && IsWord(name)
    ensures var plain, suspended := Description(cluster, ns, name), SuspendedDescription(cluster, ns, name);
            && (BelongsToCluster(plain, other) <==> other == cluster) && (BelongsToCluster(suspended, other) <==> other == cluster)
            && ParseDescription(plain) == Some((ns, name)) && ParseDescription(suspended) == Some((ns, name))
            && !IsSuspended(plain) && IsSuspended(suspended)
  {
    var tokens := [TAG, ClusterToken(cluster), AccessToken(ns, name)];
    TokensAreWords(cluster, ns, name);
    WordsOfUnwords(tokens);
    WordsOfUnwords(tokens + [SUSPENDED]);
    TagFirst(tokens);
    TagFirst(tokens + [SUSPENDED]);
    TokensRead(cluster, ns, name, []);
    TokensRead(cluster, ns, name, [SUSPENDED]);
    assert tokens + [] == tokens;
    assert tokens + [SUSPENDED] == [TAG, ClusterToken(cluster), AccessToken(ns, name), SUSPENDED];
    assert (tokens + [SUSPENDED])[3] == SUSPENDED;
    NotTheToken(cluster, ns, name);
  }

  lemma NotTheToken(cluster: string, ns: string, name: string)
    ensures TAG != SUSPENDED && ClusterToken(cluster) != SUSPENDED && AccessToken(ns, name) != SUSPENDED
  {
    assert TAG[0] == 'm' && SUSPENDED[0] == 's';
    assert ClusterToken(cluster)[0] == 'c' && AccessToken(ns, name)[0] == 'h';
  }

  /** A robot the bridge made for a HarborAccess, suspended or not, is owned by that HarborAccess
      of that cluster and by no other. */
  lemma OwnedByOneOnly(cluster: string, ns: string, name: string, saNs: string, sa: string, digest: string -> string,
                       suspended: bool, otherCluster: string, otherNs: string, otherName: string)
    requires Label(cluster) && Label(ns) && IsWord(name) && Label(otherCluster) && RobotName(cluster, saNs, sa, digest).Some?
    ensures var robot := RobotName(cluster, saNs, sa, digest).value;
            var description := if suspended then SuspendedDescription(cluster, ns, name) else Description(cluster, ns, name);
            OwnedBy(otherCluster, robot, description, otherNs, otherName) <==> (otherCluster, otherNs, otherName) == (cluster, ns, name)
  {
    OwnedByItsClusterOnly(cluster, saNs, sa, digest, otherCluster);
    DescriptionReadsBack(cluster, ns, name, otherCluster);
  }
}
