/** Small vocabulary shared by the models of the single source files. */
module Common {

  datatype Option<+T> = None | Some(value: T)

  /** No element occurs twice. */
  ghost predicate NoDup<T>(s: seq<T>) {
    forall i, j :: 0 <= i < j < |s| ==> s[i] != s[j]
  }

  /** The elements of a sequence as a set. */
  function Elems<T>(s: seq<T>): set<T> {
    set x | x in s
  }

  /** The sequence without any occurrence of t. */
  function Without(ts: seq<string>, t: string): seq<string> {
    if ts == [] then [] else (if ts[0] == t then [] else [ts[0]]) + Without(ts[1..], t)
  }

  lemma {:induction false} WithoutExact(ts: seq<string>, t: string)
    ensures forall x :: x in Without(ts, t) <==> x in ts && x != t
    ensures NoDup(ts) ==> NoDup(Without(ts, t))
    ensures t !in ts ==> Without(ts, t) == ts
    ensures NoDup(ts) ==> |Without(ts, t)| == |ts| - if t in ts then 1 else 0
  {
    if ts != [] {
      WithoutExact(ts[1..], t);
      assert forall x :: x in ts <==> x == ts[0] || x in ts[1..];
      var rest := Without(ts[1..], t);
      if NoDup(ts) {
        assert ts[0] !in ts[1..];
        forall j | 0 <= j < |rest| ensures rest[j] != ts[0] {
          assert rest[j] in rest;
        }
      }
    }
  }

  /** Lower-casing of ASCII letters. */
  function Lower(s: string): string {
    if s == [] then []
    else [if 'A' <= s[0] <= 'Z' then (s[0] as int + 32) as char else s[0]] + Lower(s[1..])
  }
}
