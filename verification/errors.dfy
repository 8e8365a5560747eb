/**
  Failure-carrying wrappers shared by every module of the model, and the
  errors the pub/sub layer can surface to its callers.
 */
module Errors {

  /** An optional value: a field that may be `undefined` in the TypeScript source. */
  datatype Option<+T> = None | Some(value: T)

  /** The errors the layer raises, or lets through from its collaborators. */
  datatype Error =
      /** `channel` was called on an instance without a publish auth policy. */
    | ConfigurationError
      /** The canonical Source of a channel has a verification of another type.
          `found` is `None` when the Source carries no verification at all. */
    | AuthMismatch(channel: string, found: Option<string>, expected: string)
      /** The backend has no resource with this id. */
    | NotFound(id: nat)
      /** A property read on `undefined` (a listing whose count and models disagree). */
    | TypeError
      /** `btoa` was given a character outside Latin-1. */
    | InvalidCharacter

  /** A value or the error that prevented it. */
  datatype Result<+T> = Ok(value: T) | Err(error: Error) {
    predicate IsFailure() { Err? }

    function PropagateFailure<U>(): Result<U>
      requires Err?
    {
      Err(error)
    }

    function Extract(): T
      requires Ok?
    {
      value
    }
  }

  /** `s` occurs in `t` starting at index `i`. */
  predicate InfixAt(s: string, t: string, i: int) {
    0 <= i <= |t| - |s| && t[i..i + |s|] == s
  }

  /** `s` occurs as a contiguous block of `t`. */
  ghost predicate IsInfix(s: string, t: string) {
    exists i :: InfixAt(s, t, i)
  }

  /** A string is a block of any string it starts. */
  lemma InfixPrefix(s: string, t: string)
    ensures IsInfix(s, s + t)
  {
    assert (s + t)[0..|s|] == s;
    assert InfixAt(s, s + t, 0);
  }

  /** Prepending text keeps every block already present. */
  lemma InfixPrepend(s: string, pre: string, t: string)
    requires IsInfix(s, t)
    ensures IsInfix(s, pre + t)
  {
    var i :| InfixAt(s, t, i);
    assert (pre + t)[|pre| + i..|pre| + i + |s|] == t[i..i + |s|];
    assert InfixAt(s, pre + t, |pre| + i);
  }

  /** The concatenation of a sequence of strings, in order. */
  function Concat(parts: seq<string>): string
    decreases |parts|
  {
    if |parts| == 0 then "" else parts[0] + Concat(parts[1..])
  }

  /** Every part is a block of the concatenation. */
  lemma {:induction false} InfixOfConcat(parts: seq<string>, k: nat)
    requires k < |parts|
    ensures IsInfix(parts[k], Concat(parts))
    decreases |parts|
  {
    if k == 0 {
      InfixPrefix(parts[0], Concat(parts[1..]));
    } else {
      InfixOfConcat(parts[1..], k - 1);
      InfixPrepend(parts[k], parts[0], Concat(parts[1..]));
    }
  }

  /** How a template literal renders an optional string: `undefined` when absent. */
  function Show(o: Option<string>): string {
    match o
    case Some(s) => s
    case None => "undefined"
  }

  /**
    The text of the error thrown for an auth mismatch, as the reconciliation
    composes it: channel name, found type and expected type, in that order.
   */
  function MismatchMessage(channel: string, found: Option<string>, expected: string): (m: string)
    ensures IsInfix(channel, m)
    ensures IsInfix(Show(found), m)
    ensures IsInfix(expected, m)
    ensures IsInfix("does not match publishAuth", m)
  {
    var parts := ["Channel \"", channel, "\" authentication \"", Show(found), "\" ",
                  "does not match publishAuth", " \"", expected, "\""];
    InfixOfConcat(parts, 1);
    InfixOfConcat(parts, 3);
    InfixOfConcat(parts, 5);
    InfixOfConcat(parts, 7);
    Concat(parts)
  }

  /** The text of an error, as a caller catching it would read `message`. */
  function Message(e: Error): string {
    match e
    case ConfigurationError => "publishAuth is required when creating or getting a channel"
    case AuthMismatch(c, f, x) => MismatchMessage(c, f, x)
    case NotFound(_) => "Not Found"
    case TypeError => "Cannot read properties of undefined (reading 'verification')"
    case InvalidCharacter => "Invalid character"
  }
}
