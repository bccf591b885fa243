/** Concatenations and their regrouping. */
module SeqFacts {
  /** `"".join(parts)` */
  function Concat(parts: seq<string>): string {
    if parts == [] then "" else Concat(parts[..|parts| - 1]) + parts[|parts| - 1]
  }

  /** `"\n".join(parts)` */
  function Join(parts: seq<string>): string {
    if parts == [] then [] else if |parts| == 1 then parts[0] else parts[0] + "\n" + Join(parts[1..])
  }

  lemma PopFront<T>(buffer: seq<T>, later: seq<T>)
    requires buffer != []
    ensures buffer + later == [buffer[0]] + (buffer[1..] + later)
  {
  }

  lemma TakeOne<T>(taken: seq<T>, e: T, rest: seq<T>)
    ensures taken + ([e] + rest) == taken + [e] + rest
  {
  }

  lemma TakeSome<T>(taken: seq<T>, some: seq<T>, rest: seq<T>)
    ensures taken + (some + rest) == taken + some + rest
  {
  }

  lemma Regroup<T>(a: seq<T>, b: seq<T>, c: seq<T>, d: seq<T>)
    ensures a + (b + c + d) == a + b + c + d
    ensures a + b + (c + d) == a + b + c + d
    ensures a + (b + (c + d)) == a + b + c + d
    ensures a + ((b + c) + d) == a + b + c + d
  {
  }

  /** `which` lists, by position, the marked ones of `all`, and `shown` holds them in that order. */
  ghost predicate AreListed<T>(which: seq<nat>, shown: seq<T>, all: seq<T>, marked: seq<bool>) {
    && |which| == |shown| && |marked| == |all|
    && (forall j :: 0 <= j < |which| ==> which[j] < |all| && shown[j] == all[which[j]])
    && (forall i, j :: 0 <= i < j < |which| ==> which[i] < which[j])
    && (forall k :: 0 <= k < |all| ==> (k in which <==> marked[k]))
  }

  lemma NothingListed<T>()
    ensures AreListed<T>([], [], [], [])
  {
  }

  lemma ListOneMore<T>(which: seq<nat>, shown: seq<T>, all: seq<T>, marked: seq<bool>, last: T, isMarked: bool)
    requires AreListed(which, shown, all, marked)
    ensures AreListed(which + (if isMarked then [|all|] else []), shown + (if isMarked then [last] else []),
                      all + [last], marked + [isMarked])
  {
    assert forall j :: 0 <= j < |which| ==> which[j] < |all|;
  }
}
