/** The account list of the `bot` subcommand: each positional argument is written
    `name:id` and becomes an `Account`.  The command-line parser itself is not
    modelled; the positional arguments are given as a sequence of strings. */
module Arguments {
  import opened Outcomes

  datatype Account = Account(name: string, id: string)

  /** `split(sep)` with no limit: the pieces between separators, empty pieces kept. */
  function Split(s: string, sep: char): (r: seq<string>)
    ensures |r| >= 1
    ensures forall k :: 0 <= k < |r| ==> sep !in r[k]
  {
    if s == [] then [""]
    else
      var rest := Split(s[1..], sep);
      if s[0] == sep then [""] + rest else [[s[0]] + rest[0]] + rest[1..]
  }

  /** `joinToString(sep)`: the pieces with one separator between neighbours. */
  function Join(pieces: seq<string>, sep: char): string
    requires |pieces| >= 1
  {
    if |pieces| == 1 then pieces[0] else pieces[0] + [sep] + Join(pieces[1..], sep)
  }

  /** Splitting loses nothing: joining the pieces back gives the input. */
  lemma {:induction false} JoinSplit(s: string, sep: char)
    ensures Join(Split(s, sep), sep) == s
  {
    if s != [] {
      var rest := Split(s[1..], sep);
      JoinSplit(s[1..], sep);
      if s[0] == sep {
        assert Split(s, sep)[1..] == rest;
      } else {
        var p := Split(s, sep);
        assert p[0] == [s[0]] + rest[0];
        if |rest| > 1 {
          assert p[1..] == rest[1..];
        }
      }
    }
  }

  /** There is one more piece than there are separators. */
  lemma {:induction false} SplitCount(s: string, sep: char)
    ensures |Split(s, sep)| == multiset(s)[sep] + 1
  {
    if s != [] {
      SplitCount(s[1..], sep);
      assert s == [s[0]] + s[1..];
      assert multiset(s) == multiset([s[0]]) + multiset(s[1..]);
    }
  }

  /** The first piece and separator of a split, and the second piece after them, lie in
      the input in that order; the second piece ends at the input's end or at a separator. */
  lemma SplitFirstTwo(s: string, sep: char)
    requires |Split(s, sep)| >= 2
    ensures var p := Split(s, sep);
            var n, i := |p[0]|, |p[1]|;
            && n + 1 + i <= |s|
            && s[..n] == p[0] && s[n] == sep && s[n + 1..n + 1 + i] == p[1]
            && (n + 1 + i == |s| || s[n + 1 + i] == sep)
  {
    var p := Split(s, sep);
    JoinSplit(s, sep);
    var tail := Join(p[1..], sep);
    assert s == p[0] + [sep] + tail;
    var after := if |p| == 2 then "" else [sep] + Join(p[2..], sep);
    assert tail == p[1] + after by {
      if |p| > 2 {
        assert p[1..][1..] == p[2..];
      }
    }
    assert s == p[0] + [sep] + p[1] + after;
  }

  /** Text up to the first separator is exactly the first piece. */
  lemma {:induction false} SplitAtFirst(u: string, sep: char, v: string)
    requires sep !in u
    ensures Split(u + [sep] + v, sep) == [u] + Split(v, sep)
  {
    var s := u + [sep] + v;
    if u == [] {
      assert s == [sep] + v;
      assert s[1..] == v;
    } else {
      assert s[1..] == u[1..] + [sep] + v;
      SplitAtFirst(u[1..], sep, v);
      assert [u[0]] + u[1..] == u;
    }
  }

  /** What destructuring a one-piece list (a singleton list) as `(name, id)` throws. */
  const SecondComponentMissing := Throwable("java.lang.IndexOutOfBoundsException", Some("Index: 1, Size: 1"))

  /** `String.toAccount()`: the name is the text before the first `':'`, the id the
      text from there to the next `':'` (or the end); anything after a second `':'`
      is dropped, and a spec with no `':'` at all throws. */
  function ToAccount(spec: string): (r: Call<Account>)
    ensures r.Threw? <==> ':' !in spec
    ensures r.Threw? ==> r.cause == SecondComponentMissing
    ensures r.Returned? ==>
              var n, i := |r.value.name|, |r.value.id|;
              && ':' !in r.value.name && ':' !in r.value.id
              && n + 1 + i <= |spec|
              && spec[..n] == r.value.name && spec[n] == ':' && spec[n + 1..n + 1 + i] == r.value.id
              && (n + 1 + i == |spec| || spec[n + 1 + i] == ':')
  {
    var pieces := Split(spec, ':');
    SplitCount(spec, ':');
    if |pieces| < 2 then Threw(SecondComponentMissing)
    else
      SplitFirstTwo(spec, ':');
      Returned(Account(pieces[0], pieces[1]))
  }

  /** A spec with more than two pieces keeps the first two and drops the rest. */
  lemma ExtraPiecesDropped(name: string, id: string, rest: string)
    requires ':' !in name && ':' !in id
    ensures ToAccount(name + ":" + id + ":" + rest) == Returned(Account(name, id))
  {
    assert name + ":" + id + ":" + rest == name + [':'] + (id + [':'] + rest);
    SplitAtFirst(name, ':', id + [':'] + rest);
    SplitAtFirst(id, ':', rest);
  }

  /** `accounts`: `toAccount` mapped over the positional arguments, in order; the
      first spec without `':'` makes the whole list throw. */
  function Accounts(specs: seq<string>): (r: Call<seq<Account>>)
    ensures r.Returned? <==> forall k :: 0 <= k < |specs| ==> ':' in specs[k]
    ensures r.Threw? ==> r.cause == SecondComponentMissing
    ensures r.Returned? ==>
              |r.value| == |specs| && forall k :: 0 <= k < |specs| ==> ToAccount(specs[k]) == Returned(r.value[k])
  {
    if specs == [] then Returned([])
    else
      match (ToAccount(specs[0]), Accounts(specs[1..]))
      case (Threw(e), _) => Threw(e)
      case (Returned(_), Threw(e)) => Threw(e)
      case (Returned(a), Returned(rest)) => Returned([a] + rest)
  }
}
