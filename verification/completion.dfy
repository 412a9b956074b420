/**
 * Shell completion of machine names (`getMachines`, `autocompleteMachine`,
 * `autocompleteMachineSSH`). The machine list of the default provider is an input: either the
 * machines it lists, in its order, or the error its `List` call returns.
 */
module Completion {
  import opened Wrappers
  import opened Fs
  import opened Seqs

  /** The two `cobra.ShellCompDirective` values the completers return. */
  datatype ShellCompDirective = ShellCompDirectiveDefault | ShellCompDirectiveNoFileComp

  /** One entry of the provider's machine list; only its name matters here. */
  datatype ListResponse = ListResponse(name: string)

  /** `strings.HasPrefix(s, prefix)`. */
  predicate HasPrefix(s: string, prefix: string) {
    prefix <= s
  }

  function Names(machines: seq<ListResponse>): (r: seq<string>)
    ensures |r| == |machines|
    ensures forall i :: 0 <= i < |machines| ==> r[i] == machines[i].name
  {
    seq(|machines|, i requires 0 <= i < |machines| => machines[i].name)
  }

  /** The names that start with `toComplete`, in list order. */
  function PrefixMatches(names: seq<string>, toComplete: string): seq<string> {
    Filter(names, (n: string) => HasPrefix(n, toComplete))
  }

  /** A name is suggested iff the provider lists it and it starts with the partial input. */
  lemma PrefixMatchesMember(names: seq<string>, toComplete: string, n: string)
    ensures n in PrefixMatches(names, toComplete) <==> n in names && HasPrefix(n, toComplete)
  {
    FilterMember(names, (n: string) => HasPrefix(n, toComplete), n);
  }

  /** Suggestions keep provider order: the matches of a longer list extend those of its prefix. */
  lemma PrefixMatchesAppend(a: seq<string>, b: seq<string>, toComplete: string)
    ensures PrefixMatches(a + b, toComplete) == PrefixMatches(a, toComplete) + PrefixMatches(b, toComplete)
  {
    FilterAppend(a, b, (n: string) => HasPrefix(n, toComplete));
  }

  /** The empty partial input completes to every listed name. */
  lemma EmptyInputSuggestsAll(names: seq<string>)
    ensures PrefixMatches(names, "") == names
  {
    FilterKeepsAll(names, (n: string) => HasPrefix(n, ""));
  }

  /** What `getMachines` returns for a provider listing and a partial input; `None` is nil. */
  function Suggestions(listing: Result<seq<ListResponse>, Error>, toComplete: string): Option<seq<string>> {
    match listing
    case Failure(_) => None
    case Success(machines) => Some(PrefixMatches(Names(machines), toComplete))
  }

  /** `getMachines`: filters the provider's machine names by prefix, in a loop. */
  method GetMachines(listing: Result<seq<ListResponse>, Error>, toComplete: string)
    returns (suggestions: Option<seq<string>>, directive: ShellCompDirective)
    ensures suggestions == Suggestions(listing, toComplete)
    ensures directive == ShellCompDirectiveNoFileComp
  {
    if listing.Failure? {
      return None, ShellCompDirectiveNoFileComp;
    }
    var machines := listing.value;
    var found: seq<string> := [];
    for i := 0 to |machines|
      invariant found == PrefixMatches(Names(machines[..i]), toComplete)
    {
      assert Names(machines[..i + 1]) == Names(machines[..i]) + [machines[i].name];
      PrefixMatchesAppend(Names(machines[..i]), [machines[i].name], toComplete);
      if HasPrefix(machines[i].name, toComplete) {
        found := found + [machines[i].name];
      }
    }
    assert machines[..|machines|] == machines;
    return Some(found), ShellCompDirectiveNoFileComp;
  }

  /** `autocompleteMachineSSH`: completes the first argument only. */
  method AutocompleteMachineSSH(args: seq<string>, toComplete: string,
                                listing: Result<seq<ListResponse>, Error>)
    returns (suggestions: Option<seq<string>>, directive: ShellCompDirective)
    ensures |args| == 0 ==>
      suggestions == Suggestions(listing, toComplete) && directive == ShellCompDirectiveNoFileComp
    ensures |args| > 0 ==> suggestions == None && directive == ShellCompDirectiveDefault
  {
    if |args| == 0 {
      suggestions, directive := GetMachines(listing, toComplete);
      return;
    }
    return None, ShellCompDirectiveDefault;
  }

  /** `autocompleteMachine`: completes the first argument only, never offering file names. */
  method AutocompleteMachine(args: seq<string>, toComplete: string,
                             listing: Result<seq<ListResponse>, Error>)
    returns (suggestions: Option<seq<string>>, directive: ShellCompDirective)
    ensures |args| == 0 ==> suggestions == Suggestions(listing, toComplete)
    ensures |args| > 0 ==> suggestions == None
    ensures directive == ShellCompDirectiveNoFileComp
  {
    if |args| == 0 {
      suggestions, directive := GetMachines(listing, toComplete);
      return;
    }
    return None, ShellCompDirectiveNoFileComp;
  }
}
