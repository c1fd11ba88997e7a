/** The text of the known-hosts reset script built by `createSSHResetScript`:
    a shebang line, then two `ssh-keygen -R` lines per host, one for its
    address and one for its hostname (suffixed with the DNS domain when one
    is given). The host map is visited in an unspecified order, so the script
    is specified up to the order in which the hosts are enumerated. */
module ResetScript {
  import opened Types

  const Shebang := "#!/bin/bash\n"
  const KeygenRemove := "ssh-keygen -f $HOME/.ssh/known_hosts -R "

  /** One command line removing `target` from the known-hosts file. */
  function RemoveLine(target: string): string {
    KeygenRemove + target + "\n"
  }

  /** The name under which a host is known: bare, or with the DNS domain appended. */
  function KnownName(hostname: string, domain: string): string {
    if domain == "" then hostname else hostname + "." + domain
  }

  /** The two lines written for one host. */
  function HostLines(host: AnsibleHost, domain: string): seq<string> {
    [RemoveLine(host.hostIp), RemoveLine(KnownName(host.hostname, domain))]
  }

  /** The lines written for the hosts named by `order`, in that order. */
  function ScriptLines(hosts: map<string, AnsibleHost>, order: seq<string>, domain: string): (lines: seq<string>)
    requires forall i :: 0 <= i < |order| ==> order[i] in hosts
    ensures |lines| == 2 * |order|
  {
    if order == [] then []
    else ScriptLines(hosts, order[..|order| - 1], domain) + HostLines(hosts[Last(order)], domain)
  }

  /** The lines joined into one text. */
  function Concat(lines: seq<string>): string {
    if lines == [] then "" else Concat(lines[..|lines| - 1]) + Last(lines)
  }

  /** `order` lists every key of `keys` exactly once. */
  ghost predicate Enumerates(order: seq<string>, keys: set<string>) {
    && |order| == |keys|
    && (forall i :: 0 <= i < |order| ==> order[i] in keys)
    && (forall k :: k in keys ==> k in order)
    && (forall i, j :: 0 <= i < j < |order| ==> order[i] != order[j])
  }

  /** The script text for one enumeration order of the host map. */
  function Script(hosts: map<string, AnsibleHost>, order: seq<string>, domain: string): string
    requires forall i :: 0 <= i < |order| ==> order[i] in hosts
  {
    Shebang + Concat(ScriptLines(hosts, order, domain))
  }

  /** The script-building loop of `createSSHResetScript`; writing the file is left out.
      The script is the one for some enumeration of the host map. */
  method CreateSSHResetScript(hosts: map<string, AnsibleHost>, domain: string) returns (script: string)
    ensures exists order :: Enumerates(order, hosts.Keys) && script == Script(hosts, order, domain)
  {
    script := Shebang;
    ghost var order: seq<string> := [];
    var remaining := hosts.Keys;
    while remaining != {}
      invariant remaining <= hosts.Keys
      invariant |order| + |remaining| == |hosts.Keys|
      invariant forall i :: 0 <= i < |order| ==> order[i] in hosts && order[i] !in remaining
      invariant forall k :: k in hosts && k !in remaining ==> k in order
      invariant forall i, j :: 0 <= i < j < |order| ==> order[i] != order[j]
      invariant script == Script(hosts, order, domain)
      decreases |remaining|
    {
      var k :| k in remaining;
      var v := hosts[k];
      ghost var before := script;
      script := script + KeygenRemove + v.hostIp + "\n";
      ghost var middle := script;
      AppendedLine(before, v.hostIp);
      if domain == "" {
        script := script + KeygenRemove + v.hostname + "\n";
        AppendedLine(middle, v.hostname);
      } else {
        script := script + KeygenRemove + v.hostname + "." + domain + "\n";
        AppendedDomainLine(middle, v.hostname, domain);
      }
      ScriptStep(hosts, order, k, domain);
      order := order + [k];
      remaining := remaining - {k};
    }
    assert Enumerates(order, hosts.Keys);
  }

  /** Enumerating one more host appends that host's two lines to the script. */
  lemma {:induction false} ScriptStep(hosts: map<string, AnsibleHost>, order: seq<string>, k: string, domain: string)
    requires forall i :: 0 <= i < |order| ==> order[i] in hosts
    requires k in hosts
    ensures forall i :: 0 <= i < |order + [k]| ==> (order + [k])[i] in hosts
    ensures Script(hosts, order + [k], domain) ==
              Script(hosts, order, domain) + RemoveLine(hosts[k].hostIp)
                + RemoveLine(KnownName(hosts[k].hostname, domain))
  {
    var lines := ScriptLines(hosts, order, domain);
    var two := HostLines(hosts[k], domain);
    ScriptLinesSnoc(hosts, order, k, domain);
    ConcatTwo(lines, two[0], two[1]);
    assert Shebang + (Concat(lines) + two[0] + two[1]) == Shebang + (Concat(lines) + two[0]) + two[1];
    assert Shebang + (Concat(lines) + two[0]) == Shebang + Concat(lines) + two[0];
  }

  /** One more host adds its two lines at the end. */
  lemma {:induction false} ScriptLinesSnoc(hosts: map<string, AnsibleHost>, order: seq<string>, k: string, domain: string)
    requires forall i :: 0 <= i < |order| ==> order[i] in hosts
    requires k in hosts
    ensures forall i :: 0 <= i < |order + [k]| ==> (order + [k])[i] in hosts
    ensures ScriptLines(hosts, order + [k], domain) ==
              ScriptLines(hosts, order, domain) + HostLines(hosts[k], domain)
  {
    assert (order + [k])[..|order|] == order;
  }

  /** Joining two more lines appends them in turn. */
  lemma {:induction false} ConcatTwo(lines: seq<string>, a: string, b: string)
    ensures Concat(lines + [a, b]) == Concat(lines) + a + b
  {
    assert (lines + [a, b])[..|lines| + 1] == lines + [a];
    assert (lines + [a])[..|lines|] == lines;
  }

  /** Appending the pieces of a command one by one appends the whole line. */
  lemma {:induction false} AppendedLine(script: string, target: string)
    ensures script + KeygenRemove + target + "\n" == script + RemoveLine(target)
  {
  }

  /** The same for a hostname followed by the DNS domain. */
  lemma {:induction false} AppendedDomainLine(script: string, hostname: string, domain: string)
    requires domain != ""
    ensures script + KeygenRemove + hostname + "." + domain + "\n" ==
              script + RemoveLine(KnownName(hostname, domain))
  {
    assert script + KeygenRemove + hostname + "." + domain ==
             script + KeygenRemove + (hostname + "." + domain);
  }

  /** Host `order[i]` owns lines 2i (its address) and 2i+1 (its name). */
  lemma {:induction false} ScriptLineAt(hosts: map<string, AnsibleHost>, order: seq<string>, domain: string, i: int)
    requires forall j :: 0 <= j < |order| ==> order[j] in hosts
    requires 0 <= i < |order|
    ensures ScriptLines(hosts, order, domain)[2 * i] == RemoveLine(hosts[order[i]].hostIp)
    ensures ScriptLines(hosts, order, domain)[2 * i + 1] == RemoveLine(KnownName(hosts[order[i]].hostname, domain))
  {
    var init := order[..|order| - 1];
    if i < |order| - 1 {
      ScriptLineAt(hosts, init, domain, i);
    }
  }

  /** The lines of two consecutive runs of hosts are the lines of each run, in turn. */
  lemma {:induction false} ScriptLinesSplit(hosts: map<string, AnsibleHost>, a: seq<string>, b: seq<string>, domain: string)
    requires forall j :: 0 <= j < |a| ==> a[j] in hosts
    requires forall j :: 0 <= j < |b| ==> b[j] in hosts
    ensures forall j :: 0 <= j < |a + b| ==> (a + b)[j] in hosts
    ensures ScriptLines(hosts, a + b, domain) == ScriptLines(hosts, a, domain) + ScriptLines(hosts, b, domain)
  {
    if b == [] {
      assert a + b == a;
    } else {
      var init := b[..|b| - 1];
      ScriptLinesSplit(hosts, a, init, domain);
      assert (a + b)[..|a + b| - 1] == a + init;
    }
  }

  /** Taking one host out of the middle of an order takes its two lines out of the script. */
  lemma {:induction false} LinesWithout(hosts: map<string, AnsibleHost>, left: seq<string>, x: string, right: seq<string>, domain: string)
    requires forall j :: 0 <= j < |left| ==> left[j] in hosts
    requires forall j :: 0 <= j < |right| ==> right[j] in hosts
    requires x in hosts
    ensures forall j :: 0 <= j < |left + [x] + right| ==> (left + [x] + right)[j] in hosts
    ensures forall j :: 0 <= j < |left + right| ==> (left + right)[j] in hosts
    ensures multiset(ScriptLines(hosts, left + [x] + right, domain)) ==
              multiset(ScriptLines(hosts, left + right, domain)) + multiset(HostLines(hosts[x], domain))
  {
    ScriptLinesSplit(hosts, left, [x], domain);
    ScriptLinesSplit(hosts, left + [x], right, domain);
    ScriptLinesSplit(hosts, left, right, domain);
    assert [x][..0] == [];
    assert ScriptLines(hosts, [x], domain) == HostLines(hosts[x], domain);
  }

  /** Removing the element at `j` removes one occurrence of it. */
  lemma {:induction false} MultisetWithout(o: seq<string>, j: int)
    requires 0 <= j < |o|
    ensures o == o[..j] + [o[j]] + o[j + 1..]
    ensures multiset(o[..j] + o[j + 1..]) == multiset(o) - multiset{o[j]}
  {
    assert o == o[..j] + [o[j]] + o[j + 1..];
    assert multiset(o) == multiset(o[..j]) + multiset{o[j]} + multiset(o[j + 1..]);
    assert multiset(o[..j] + o[j + 1..]) == multiset(o[..j]) + multiset(o[j + 1..]);
  }

  /** Reordering the hosts only reorders the lines: the same multiset of lines. */
  lemma {:induction false} ScriptLinesPermutation(hosts: map<string, AnsibleHost>, o1: seq<string>, o2: seq<string>, domain: string)
    requires forall j :: 0 <= j < |o1| ==> o1[j] in hosts
    requires forall j :: 0 <= j < |o2| ==> o2[j] in hosts
    requires multiset(o1) == multiset(o2)
    ensures multiset(ScriptLines(hosts, o1, domain)) == multiset(ScriptLines(hosts, o2, domain))
    decreases |o1|
  {
    if o1 == [] {
      assert |multiset(o2)| == 0;
      assert o2 == [];
    } else {
      var x, init := Last(o1), o1[..|o1| - 1];
      assert o1 == init + [x];
      ScriptLinesSnoc(hosts, init, x, domain);
      var j := MatchLast(o1, o2);
      var rest := o2[..j] + o2[j + 1..];
      LinesWithout(hosts, o2[..j], x, o2[j + 1..], domain);
      ScriptLinesPermutation(hosts, init, rest, domain);
      var lines := HostLines(hosts[x], domain);
      assert multiset(ScriptLines(hosts, o1, domain)) ==
             multiset(ScriptLines(hosts, init, domain)) + multiset(lines);
      assert multiset(ScriptLines(hosts, o2, domain)) ==
             multiset(ScriptLines(hosts, rest, domain)) + multiset(lines);
    }
  }

  /** The position in `o2` of the last element of `o1`, when both hold the same
      elements; what remains on each side is again the same. */
  lemma {:induction false} MatchLast(o1: seq<string>, o2: seq<string>) returns (j: int)
    requires o1 != [] && multiset(o1) == multiset(o2)
    ensures 0 <= j < |o2| && o2[j] == Last(o1)
    ensures o2 == o2[..j] + [o2[j]] + o2[j + 1..]
    ensures multiset(o1[..|o1| - 1]) == multiset(o2[..j] + o2[j + 1..])
  {
    assert Last(o1) in multiset(o2);
    j :| 0 <= j < |o2| && o2[j] == Last(o1);
    MultisetWithout(o1, |o1| - 1);
    assert o1[..|o1| - 1] + o1[|o1|..] == o1[..|o1| - 1];
    MultisetWithout(o2, j);
  }

  /** In a sequence without repetitions every element occurs once. */
  lemma {:induction false} DistinctOccursOnce(order: seq<string>, x: string)
    requires forall i, j :: 0 <= i < j < |order| ==> order[i] != order[j]
    ensures multiset(order)[x] == if x in order then 1 else 0
  {
    if order != [] {
      var init := order[..|order| - 1];
      assert order == init + [Last(order)];
      DistinctOccursOnce(init, x);
    }
  }

  /** Two enumerations of the same keys list the same keys, only in another order. */
  lemma {:induction false} EnumerationsArePermutations(o1: seq<string>, o2: seq<string>, keys: set<string>)
    requires Enumerates(o1, keys) && Enumerates(o2, keys)
    ensures multiset(o1) == multiset(o2)
  {
    forall x
      ensures multiset(o1)[x] == multiset(o2)[x]
    {
      DistinctOccursOnce(o1, x);
      DistinctOccursOnce(o2, x);
    }
  }

  /** The lines of the script do not depend on the order in which the host map
      is visited: any two enumerations give the same multiset of lines. */
  lemma {:induction false} ScriptOrderIndependent(hosts: map<string, AnsibleHost>, o1: seq<string>, o2: seq<string>, domain: string)
    requires Enumerates(o1, hosts.Keys) && Enumerates(o2, hosts.Keys)
    ensures multiset(ScriptLines(hosts, o1, domain)) == multiset(ScriptLines(hosts, o2, domain))
  {
    EnumerationsArePermutations(o1, o2, hosts.Keys);
    ScriptLinesPermutation(hosts, o1, o2, domain);
  }

  /** The number of line breaks in a text. */
  function CountNewlines(s: string): nat {
    if s == [] then 0 else CountNewlines(s[..|s| - 1]) + if Last(s) == '\n' then 1 else 0
  }

  lemma {:induction false} CountNewlinesAppend(a: string, b: string)
    ensures CountNewlines(a + b) == CountNewlines(a) + CountNewlines(b)
  {
    if b == [] {
      assert a + b == a;
    } else {
      CountNewlinesAppend(a, b[..|b| - 1]);
      assert (a + b)[..|a + b| - 1] == a + b[..|b| - 1];
    }
  }

  lemma {:induction false} NoNewlineCount(s: string)
    requires '\n' !in s
    ensures CountNewlines(s) == 0
  {
    if s != [] {
      assert forall c :: c in s[..|s| - 1] ==> c in s;
      NoNewlineCount(s[..|s| - 1]);
    }
  }

  /** A command line for a target without line breaks is exactly one line. */
  lemma {:induction false} OneLine(target: string)
    requires '\n' !in target
    ensures CountNewlines(RemoveLine(target)) == 1
  {
    assert '\n' !in KeygenRemove;
    NoNewlineCount(KeygenRemove);
    NoNewlineCount(target);
    CountNewlinesAppend(KeygenRemove, target);
    CountNewlinesAppend(KeygenRemove + target, "\n");
  }

  /** No address, hostname or domain contains a line break. */
  ghost predicate SingleLineHosts(hosts: map<string, AnsibleHost>, domain: string) {
    && '\n' !in domain
    && forall k :: k in hosts ==> '\n' !in hosts[k].hostIp && '\n' !in hosts[k].hostname
  }

  lemma {:induction false} ScriptNewlines(hosts: map<string, AnsibleHost>, order: seq<string>, domain: string)
    requires forall j :: 0 <= j < |order| ==> order[j] in hosts
    requires SingleLineHosts(hosts, domain)
    ensures CountNewlines(Script(hosts, order, domain)) == 1 + 2 * |order|
  {
    if order == [] {
      assert Shebang == "#!/bin/bash" + "\n";
      assert '\n' !in "#!/bin/bash";
      NoNewlineCount("#!/bin/bash");
      CountNewlinesAppend("#!/bin/bash", "\n");
      assert Script(hosts, order, domain) == Shebang;
    } else {
      var init, k := order[..|order| - 1], Last(order);
      assert order == init + [k];
      ScriptNewlines(hosts, init, domain);
      ScriptStep(hosts, init, k, domain);
      var known := KnownName(hosts[k].hostname, domain);
      assert '\n' !in known by {
        if domain != "" {
          assert forall c :: c in known ==> c in hosts[k].hostname || c == '.' || c in domain;
        }
      }
      OneLine(hosts[k].hostIp);
      OneLine(known);
      CountNewlinesAppend(Script(hosts, init, domain), RemoveLine(hosts[k].hostIp));
      CountNewlinesAppend(Script(hosts, init, domain) + RemoveLine(hosts[k].hostIp), RemoveLine(known));
    }
  }

  /** When no address, hostname or domain contains a line break, the script has
      exactly 1 + 2 * |hosts| lines: the shebang and two per host. */
  lemma {:induction false} ScriptLineCount(hosts: map<string, AnsibleHost>, order: seq<string>, domain: string)
    requires Enumerates(order, hosts.Keys)
    requires SingleLineHosts(hosts, domain)
    ensures CountNewlines(Script(hosts, order, domain)) == 1 + 2 * |hosts|
  {
    ScriptNewlines(hosts, order, domain);
  }

  /** The worked example: one host, with a DNS domain. */
  lemma {:induction false} ScriptExample(order: seq<string>)
    requires Enumerates(order, {"web1"})
    ensures Script(map["web1" := AnsibleHost("10.0.0.5", "web1")], order, "example.com") ==
              Shebang + RemoveLine("10.0.0.5") + RemoveLine("web1.example.com")
  {
    var hosts := map["web1" := AnsibleHost("10.0.0.5", "web1")];
    assert order == ["web1"] by {
      assert |order| == 1 && order[0] in {"web1"};
    }
    assert Script(hosts, [], "example.com") == Shebang;
    ScriptStep(hosts, [], "web1", "example.com");
    assert [] + ["web1"] == order;
    assert hosts["web1"] == AnsibleHost("10.0.0.5", "web1");
    assert KnownName("web1", "example.com") == "web1.example.com";
  }
}
