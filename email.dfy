/** The address pattern `/^[^\s@]+@[^\s@]+\.[^\s@]+$/` of the contact form,
    as the deterministic automaton that decides it, together with two
    declarative readings of the language it accepts.  It is a permissive
    shape check, not an address grammar. */
module EmailPattern {
  import opened Text

  /** A character of the class `[^\s@]`. */
  predicate IsAddrChar(c: char) {
    !IsWs(c) && c != '@'
  }

  /** Every character is in `[^\s@]`. */
  predicate Clean(s: string) {
    forall i :: 0 <= i < |s| ==> IsAddrChar(s[i])
  }

  /** A `.` with at least one character before and one after it. */
  predicate HasInnerDot(s: string) {
    exists i :: 1 <= i < |s| - 1 && s[i] == '.'
  }

  /** A `.` with at least one character after it. */
  predicate HasDotBeforeLast(s: string) {
    exists i :: 0 <= i < |s| - 1 && s[i] == '.'
  }

  /** Where the scan of an address stands.  `Host` has read at least one
      domain character but no dot that could end the host part; `HostDot`
      has just read such a dot; `Tld` has read at least one character after
      it, and is the only accepting state. */
  datatype Scan = Start | Local | At | Host | HostDot | Tld | Fail

  function Step(q: Scan, c: char): Scan {
    if !IsAddrChar(c) then
      (if c == '@' && q == Local then At else Fail)
    else
      match q
      case Start => Local
      case Local => Local
      case At => Host
      case Host => if c == '.' then HostDot else Host
      case HostDot => Tld
      case Tld => Tld
      case Fail => Fail
  }

  function Run(q: Scan, s: string): Scan
    decreases |s|
  {
    if s == [] then q else Run(Step(q, s[0]), s[1..])
  }

  /** `emailRegex.test(s)`. */
  predicate Matches(s: string) {
    Run(Start, s) == Tld
  }

  /** The address splits at index `k` into a local part, the `@` and a
      domain, with no whitespace and no other `@`, and an inner dot in the
      domain. */
  predicate SplitsAt(s: string, k: int) {
    0 <= k < |s| && s[k] == '@' && Clean(s[..k]) && Clean(s[k + 1..]) && HasInnerDot(s[k + 1..])
  }

  /** The language of the pattern: a non-empty local part, one `@`, and a
      domain with a dot that is neither its first nor its last character;
      no whitespace and no other `@` anywhere. */
  ghost predicate EmailShape(s: string) {
    exists local, domain :: s == local + "@" + domain && local != [] && Clean(local) && Clean(domain) && HasInnerDot(domain)
  }

  /** The pattern read literally, one piece per group of the expression. */
  ghost predicate RegexShape(s: string) {
    exists local, host, tld ::
      && s == local + "@" + host + "." + tld
      && local != [] && host != [] && tld != []
      && Clean(local) && Clean(host) && Clean(tld)
  }

  lemma {:induction false} RunFail(t: string)
    ensures Run(Fail, t) == Fail
    decreases |t|
  {
    if t != [] {
      RunFail(t[1..]);
    }
  }

  lemma CleanCons(t: string)
    requires t != []
    ensures Clean(t) <==> IsAddrChar(t[0]) && Clean(t[1..])
  {
    if IsAddrChar(t[0]) && Clean(t[1..]) {
      forall i | 0 <= i < |t| ensures IsAddrChar(t[i]) {
        if i > 0 { assert t[i] == t[1..][i - 1]; }
      }
    }
  }

  lemma {:induction false} RunTld(t: string)
    ensures Run(Tld, t) == Tld <==> Clean(t)
    decreases |t|
  {
    if t != [] {
      CleanCons(t);
      if IsAddrChar(t[0]) { RunTld(t[1..]); } else { RunFail(t[1..]); }
    }
  }

  lemma RunHostDot(t: string)
    ensures Run(HostDot, t) == Tld <==> t != [] && Clean(t)
  {
    if t != [] {
      CleanCons(t);
      if IsAddrChar(t[0]) { RunTld(t[1..]); } else { RunFail(t[1..]); }
    }
  }

  lemma DotBeforeLastCons(t: string)
    requires t != [] && t[0] != '.'
    ensures HasDotBeforeLast(t) <==> HasDotBeforeLast(t[1..])
  {
    if HasDotBeforeLast(t) {
      var i :| 0 <= i < |t| - 1 && t[i] == '.';
      assert t[1..][i - 1] == '.';
    }
    if HasDotBeforeLast(t[1..]) {
      var i :| 0 <= i < |t[1..]| - 1 && t[1..][i] == '.';
      assert t[i + 1] == '.';
    }
  }

  lemma {:induction false} RunHost(t: string)
    ensures Run(Host, t) == Tld <==> Clean(t) && HasDotBeforeLast(t)
    decreases |t|
  {
    if t != [] {
      CleanCons(t);
      if !IsAddrChar(t[0]) {
        RunFail(t[1..]);
      } else if t[0] == '.' {
        RunHostDot(t[1..]);
        if |t| >= 2 { assert t[0] == '.'; }
      } else {
        RunHost(t[1..]);
        DotBeforeLastCons(t);
      }
    }
  }

  lemma InnerDotShift(t: string)
    requires t != []
    ensures HasInnerDot(t) <==> HasDotBeforeLast(t[1..])
  {
    if HasInnerDot(t) {
      var i :| 1 <= i < |t| - 1 && t[i] == '.';
      assert t[1..][i - 1] == '.';
    }
    if HasDotBeforeLast(t[1..]) {
      var i :| 0 <= i < |t[1..]| - 1 && t[1..][i] == '.';
      assert t[i + 1] == '.';
    }
  }

  lemma RunAt(t: string)
    ensures Run(At, t) == Tld <==> Clean(t) && HasInnerDot(t)
  {
    if t != [] {
      CleanCons(t);
      InnerDotShift(t);
      if IsAddrChar(t[0]) { RunHost(t[1..]); } else { RunFail(t[1..]); }
    }
  }

  /** Past a first local character, a split of `t` is a split of its tail. */
  lemma SplitsAtCons(t: string, k: int)
    requires t != [] && IsAddrChar(t[0]) && 1 <= k
    ensures SplitsAt(t, k) <==> SplitsAt(t[1..], k - 1)
  {
    if k < |t| {
      assert t[..k] == [t[0]] + t[1..][..k - 1];
      assert t[k + 1..] == t[1..][k..];
      CleanCons(t[..k]);
      assert t[..k][1..] == t[1..][..k - 1];
    }
  }

  /** No split of `t` starts at index 0 unless `t[0]` is the `@`, and no
      split lies past a leading character outside `[^\s@]`. */
  lemma SplitsAtHead(t: string, k: int)
    requires t != [] && !IsAddrChar(t[0]) && 1 <= k
    ensures !SplitsAt(t, k)
  {
    if 0 <= k < |t| {
      assert t[..k][0] == t[0];
    }
  }

  lemma {:induction false} RunLocal(t: string)
    ensures Run(Local, t) == Tld <==> exists k :: SplitsAt(t, k)
    decreases |t|
  {
    if t == [] {
      assert forall k :: !SplitsAt(t, k);
    } else if t[0] == '@' {
      RunAt(t[1..]);
      assert Clean(t[..0]);
      assert SplitsAt(t, 0) <==> Run(At, t[1..]) == Tld;
    } else if !IsAddrChar(t[0]) {
      RunFail(t[1..]);
      forall k ensures !SplitsAt(t, k) {
        if k >= 1 { SplitsAtHead(t, k); }
      }
    } else {
      RunLocal(t[1..]);
      if exists k :: SplitsAt(t, k) {
        var k :| SplitsAt(t, k);
        SplitsAtCons(t, k);
      }
      if exists k :: SplitsAt(t[1..], k) {
        var k :| SplitsAt(t[1..], k);
        SplitsAtCons(t, k + 1);
      }
    }
  }

  /** The automaton accepts exactly the addresses that split at an `@`
      after a non-empty local part. */
  lemma RunStart(s: string)
    ensures Matches(s) <==> exists k :: 1 <= k && SplitsAt(s, k)
  {
    if s == [] {
    } else if !IsAddrChar(s[0]) {
      RunFail(s[1..]);
      forall k | 1 <= k ensures !SplitsAt(s, k) { SplitsAtHead(s, k); }
    } else {
      RunLocal(s[1..]);
      if exists k :: 1 <= k && SplitsAt(s, k) {
        var k :| 1 <= k && SplitsAt(s, k);
        SplitsAtCons(s, k);
      }
      if exists k :: SplitsAt(s[1..], k) {
        var k :| SplitsAt(s[1..], k);
        SplitsAtCons(s, k + 1);
      }
    }
  }

  /** The pattern accepts exactly `local + "@" + domain` with a non-empty
      local part, no whitespace and no `@` in either part, and a dot in
      the domain that is neither its first nor its last character. */
  lemma MatchesShape(s: string)
    ensures Matches(s) <==> EmailShape(s)
  {
    RunStart(s);
    if Matches(s) {
      var k :| 1 <= k && SplitsAt(s, k);
      assert s == s[..k] + "@" + s[k + 1..];
    }
    if EmailShape(s) {
      var local, domain :| s == local + "@" + domain && local != [] && Clean(local) && Clean(domain) && HasInnerDot(domain);
      var k := |local|;
      assert s[..k] == local && s[k] == '@' && s[k + 1..] == domain;
      assert SplitsAt(s, k);
    }
  }

  /** A domain has an inner dot exactly when it is `host + "." + tld` with
      both pieces non-empty. */
  lemma InnerDotSplit(domain: string)
    requires Clean(domain)
    ensures HasInnerDot(domain) <==> exists host, tld :: domain == host + "." + tld && host != [] && tld != [] && Clean(host) && Clean(tld)
  {
    if HasInnerDot(domain) {
      var i :| 1 <= i < |domain| - 1 && domain[i] == '.';
      var host, tld := domain[..i], domain[i + 1..];
      assert domain == host + "." + tld;
      assert Clean(host) && Clean(tld) by {
        forall j | 0 <= j < |host| ensures IsAddrChar(host[j]) { assert host[j] == domain[j]; }
        forall j | 0 <= j < |tld| ensures IsAddrChar(tld[j]) { assert tld[j] == domain[i + 1 + j]; }
      }
    }
    if exists host, tld :: domain == host + "." + tld && host != [] && tld != [] && Clean(host) && Clean(tld) {
      var host, tld :| domain == host + "." + tld && host != [] && tld != [] && Clean(host) && Clean(tld);
      assert domain[|host|] == '.';
    }
  }

  /** The declarative shape and the literal reading of the expression agree. */
  lemma ShapeIsRegex(s: string)
    ensures EmailShape(s) <==> RegexShape(s)
  {
    if EmailShape(s) { ShapeToRegex(s); }
    if RegexShape(s) { RegexToShape(s); }
  }

  lemma ShapeToRegex(s: string)
    requires EmailShape(s)
    ensures RegexShape(s)
  {
    var local, domain :| s == local + "@" + domain && local != [] && Clean(local) && Clean(domain) && HasInnerDot(domain);
    InnerDotSplit(domain);
    var host, tld :| domain == host + "." + tld && host != [] && tld != [] && Clean(host) && Clean(tld);
    assert s == local + "@" + host + "." + tld;
  }

  lemma RegexToShape(s: string)
    requires RegexShape(s)
    ensures EmailShape(s)
  {
    var local, host, tld :| s == local + "@" + host + "." + tld && local != [] && host != [] && tld != [] && Clean(local) && Clean(host) && Clean(tld);
    PartsToShape(s, local, host, tld);
  }

  lemma PartsToShape(s: string, local: string, host: string, tld: string)
    requires s == local + "@" + host + "." + tld
    requires local != [] && host != [] && tld != [] && Clean(local) && Clean(host) && Clean(tld)
    ensures EmailShape(s)
  {
    var domain := host + "." + tld;
    CleanAroundDot(host, tld);
    assert domain[|host|] == '.';
    assert s == local + "@" + domain;
  }

  lemma CleanAroundDot(host: string, tld: string)
    requires Clean(host) && Clean(tld)
    ensures Clean(host + "." + tld)
  {
    var domain := host + "." + tld;
    forall j | 0 <= j < |domain| ensures IsAddrChar(domain[j]) {
      if j < |host| { assert domain[j] == host[j]; }
      else if j > |host| { assert domain[j] == tld[j - |host| - 1]; }
    }
  }

  /** An accepted address holds no whitespace and exactly one `@`. */
  lemma MatchesOneAt(s: string)
    requires Matches(s)
    ensures forall i :: 0 <= i < |s| ==> !IsWs(s[i])
    ensures exists k :: 0 < k < |s| - 1 && s[k] == '@' && forall j :: 0 <= j < |s| && s[j] == '@' ==> j == k
  {
    RunStart(s);
    var k :| 1 <= k && SplitsAt(s, k);
    forall i | 0 <= i < |s| && i != k ensures IsAddrChar(s[i]) {
      if i < k { assert s[..k][i] == s[i]; } else { assert s[k + 1..][i - k - 1] == s[i]; }
    }
  }
}
