/** Process filtering: an empty filter text returns the processes as they
    are; any other text keeps, in order, the processes that match it. What
    "match" means is the process record's own predicate, which is a
    parameter here; `NameOrPid` is one concrete instance of it. */
module FilterProcesses {
  import opened Entities
  import opened Text

  /** `a` can be obtained from `b` by deleting elements, keeping order. */
  predicate IsSubsequence(a: seq<Process>, b: seq<Process>)
    decreases |b|
  {
    if a == [] then true
    else if b == [] then false
    else (a[0] == b[0] && IsSubsequence(a[1..], b[1..])) || IsSubsequence(a, b[1..])
  }

  lemma {:induction false} SubsequenceReflexive(a: seq<Process>)
    ensures IsSubsequence(a, a)
  {
    if a != [] {
      SubsequenceReflexive(a[1..]);
    }
  }

  /** The list comprehension: the processes that match `text`, in input
      order; a process is kept exactly when it is in the input and matches. */
  function Select(ps: seq<Process>, text: string, matches: (Process, string) -> bool): (r: seq<Process>)
    ensures |r| <= |ps|
    ensures IsSubsequence(r, ps)
    ensures forall p :: p in r <==> p in ps && matches(p, text)
  {
    if ps == [] then []
    else
      var rest := Select(ps[1..], text, matches);
      assert ps == [ps[0]] + ps[1..];
      if matches(ps[0], text) then
        assert ([ps[0]] + rest)[1..] == rest;
        [ps[0]] + rest
      else
        rest
  }

  /** Each matching process is kept as often as it occurs in the input,
      and no other process is kept. */
  lemma {:induction false} SelectCounts(ps: seq<Process>, text: string, matches: (Process, string) -> bool)
    ensures forall p {:trigger multiset(Select(ps, text, matches))[p]} ::
      multiset(Select(ps, text, matches))[p] == if matches(p, text) then multiset(ps)[p] else 0
  {
    if ps != [] {
      SelectCounts(ps[1..], text, matches);
      assert ps == [ps[0]] + ps[1..];
    }
  }

  /** The use case: the empty text returns the input unchanged; otherwise
      the result is the order-preserving selection of the matching
      processes, each kept as often as it occurs in the input. */
  function Execute(ps: seq<Process>, text: string, matches: (Process, string) -> bool): (r: seq<Process>)
    ensures text == "" ==> r == ps
    ensures |r| <= |ps|
    ensures IsSubsequence(r, ps)
    ensures text != "" ==> forall p :: p in r <==> p in ps && matches(p, text)
    ensures text != "" ==> forall p :: multiset(r)[p] == if matches(p, text) then multiset(ps)[p] else 0
  {
    SubsequenceReflexive(ps);
    SelectCounts(ps, text, matches);
    if text == "" then ps
    else Select(ps, text, matches)
  }

  /** Selecting again with the same text changes nothing. */
  lemma {:induction false} SelectIdempotent(ps: seq<Process>, text: string, matches: (Process, string) -> bool)
    ensures Select(Select(ps, text, matches), text, matches) == Select(ps, text, matches)
  {
    if ps != [] {
      SelectIdempotent(ps[1..], text, matches);
      var rest := Select(ps[1..], text, matches);
      if matches(ps[0], text) {
        assert ([ps[0]] + rest)[1..] == rest;
      }
    }
  }

  /** Filtering a filtered list again with the same text changes nothing. */
  lemma ExecuteIdempotent(ps: seq<Process>, text: string, matches: (Process, string) -> bool)
    ensures Execute(Execute(ps, text, matches), text, matches) == Execute(ps, text, matches)
  {
    if text != "" {
      SelectIdempotent(ps, text, matches);
    }
  }

  /** One concrete matching rule: the text, lower-cased, occurs in the
      lower-cased name, or the text is exactly the pid's decimal form. */
  function NameOrPid(p: Process, text: string): bool
  {
    IsSubstring(Lower(text), Lower(p.name)) || text == DecimalString(p.pid)
  }

  /** Filtering "chrome" over Chrome, Firefox and Chrome Helper keeps the
      two Chrome processes, in order. */
  lemma ChromeScenario()
    ensures var chrome := Process(1, "Chrome", ProcessMemory(Some(100)));
      var firefox := Process(2, "Firefox", ProcessMemory(Some(200)));
      var helper := Process(3, "Chrome Helper", ProcessMemory(Some(50)));
      Execute([chrome, firefox, helper], "chrome", NameOrPid) == [chrome, helper]
  {
    var chrome := Process(1, "Chrome", ProcessMemory(Some(100)));
    var firefox := Process(2, "Firefox", ProcessMemory(Some(200)));
    var helper := Process(3, "Chrome Helper", ProcessMemory(Some(50)));
    ChromeMatches(chrome);
    ChromeMatches(helper);
    FirefoxDiffers(firefox);
    assert [chrome, firefox, helper][1..] == [firefox, helper];
    assert [firefox, helper][1..] == [helper];
  }

  /** A process whose name starts with "Chrome" matches "chrome". */
  lemma ChromeMatches(p: Process)
    requires |p.name| >= 6 && p.name[..6] == "Chrome"
    ensures NameOrPid(p, "chrome")
  {
    assert Lower("chrome") == "chrome";
    assert Lower(p.name)[..6] == "chrome";
  }

  /** Firefox does not match "chrome". */
  lemma FirefoxDiffers(p: Process)
    requires p.name == "Firefox"
    ensures !NameOrPid(p, "chrome")
  {
    assert Lower("chrome") == "chrome";
    assert forall j :: 0 <= j < |Lower(p.name)| ==> Lower(p.name)[j] != 'c';
    FirstCharAbsent("chrome", Lower(p.name));
    var digits := DecimalString(p.pid);
    assert IsDigit(digits[0]) && !IsDigit("chrome"[0]);
  }

  /** Filtering "123" keeps only the process whose pid is 123. */
  lemma PidScenario()
    ensures var a := Process(123, "Process A", ProcessMemory(Some(100)));
      var b := Process(456, "Process B", ProcessMemory(Some(200)));
      var c := Process(789, "Process C", ProcessMemory(Some(50)));
      Execute([a, b, c], "123", NameOrPid) == [a]
  {
    var a := Process(123, "Process A", ProcessMemory(Some(100)));
    var b := Process(456, "Process B", ProcessMemory(Some(200)));
    var c := Process(789, "Process C", ProcessMemory(Some(50)));
    OwnPidMatches(a);
    OtherPidDiffers(b);
    OtherPidDiffers(c);
    assert [a, b, c][1..] == [b, c];
    assert [b, c][1..] == [c];
  }

  /** A process with pid 123 matches "123". */
  lemma OwnPidMatches(p: Process)
    requires p.pid == 123
    ensures NameOrPid(p, "123")
  {
    assert DecimalString(123) == "123";
  }

  /** A process named "Process A", "Process B" or "Process C" whose pid is
      not 123 does not match "123". */
  lemma OtherPidDiffers(p: Process)
    requires p.pid != 123
    requires p.name == "Process A" || p.name == "Process B" || p.name == "Process C"
    ensures !NameOrPid(p, "123")
  {
    DecimalStringInjective(p.pid, 123);
    assert DecimalString(123) == "123";
    assert forall j :: 0 <= j < |p.name| ==> p.name[j] != '1';
    NotPidOrName(p, "123");
  }

  /** A pid whose decimal form merely begins with the text does not match. */
  lemma PidPrefixScenario()
    ensures !NameOrPid(Process(12345, "Process A", ProcessMemory(Some(100))), "123")
  {
    OtherPidDiffers(Process(12345, "Process A", ProcessMemory(Some(100))));
  }

  /** A process does not match a text that is not its pid when the text
      starts with a character, other than a letter, that its name lacks. */
  lemma NotPidOrName(p: Process, text: string)
    requires text != [] && Lower(text) == text && DecimalString(p.pid) != text
    requires !('a' <= text[0] <= 'z')
    requires forall j :: 0 <= j < |p.name| ==> p.name[j] != text[0]
    ensures !NameOrPid(p, text)
  {
    FirstCharAbsent(text, Lower(p.name));
  }

  /** A text whose first character does not appear in a name does not
      occur in it. */
  lemma FirstCharAbsent(text: string, name: string)
    requires text != []
    requires forall j :: 0 <= j < |name| ==> name[j] != text[0]
    ensures !IsSubstring(text, name)
  {
    IsSubstringAt(text, name);
    forall i | 0 <= i <= |name| - |text|
      ensures !OccursAt(text, name, i)
    {
      assert name[i..i + |text|][0] == name[i];
    }
  }
}
