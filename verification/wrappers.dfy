module Wrappers {
  datatype Option<+T> = None | Some(value: T)

  lemma OneLonger<T>(s: seq<T>, i: nat)
    requires i < |s|
    ensures s[..i + 1] == s[..i] + [s[i]]
  {}
}
