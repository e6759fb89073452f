/** The handlers' fail-fast validation chains: an ordered list of checks, of
    which the first one that fails decides the error message. */
module Validation {
  import opened Forms

  datatype Check = Check(passes: bool, message: string)

  /** The message of the first failing check, or None when all pass. */
  function FirstFailure(checks: seq<Check>): (r: Option<string>)
    ensures r.None? <==> forall k :: 0 <= k < |checks| ==> checks[k].passes
    ensures r.Some? ==> exists k :: 0 <= k < |checks| && FailsFirstAt(checks, k) && r.value == checks[k].message
  {
    if |checks| == 0 then None
    else if !checks[0].passes then Some(checks[0].message)
    else
      var rest := FirstFailure(checks[1..]);
      if rest.Some? then
        var k :| 0 <= k < |checks| - 1 && FailsFirstAt(checks[1..], k) && rest.value == checks[1..][k].message;
        assert FailsFirstAt(checks, k + 1);
        rest
      else
        rest
  }

  /** Check k fails and every check before it passes. */
  predicate FailsFirstAt(checks: seq<Check>, k: int)
    requires 0 <= k < |checks|
  {
    !checks[k].passes && forall j :: 0 <= j < k ==> checks[j].passes
  }

  /** The first failing check is the one reported. */
  lemma {:induction false} FirstFailureAt(checks: seq<Check>, k: int)
    requires 0 <= k < |checks| && FailsFirstAt(checks, k)
    ensures FirstFailure(checks) == Some(checks[k].message)
  {
    var r := FirstFailure(checks);
    assert r.Some?;
    var l :| 0 <= l < |checks| && FailsFirstAt(checks, l) && r.value == checks[l].message;
    assert !(k < l) && !(l < k) by {
      assert checks[k].passes || !(k < l);
      assert checks[l].passes || !(l < k);
    }
  }

  /** A chain made of two chains reports the first one's failure, if any,
      and otherwise the second one's. */
  lemma {:induction false} FirstFailureAppend(a: seq<Check>, b: seq<Check>)
    ensures FirstFailure(a + b) == if FirstFailure(a).Some? then FirstFailure(a) else FirstFailure(b)
  {
    if |a| > 0 {
      assert (a + b)[1..] == a[1..] + b;
      FirstFailureAppend(a[1..], b);
    } else {
      assert a + b == b;
    }
  }

  const NamesRequired := "First name and last name are required"
  const EmailRequired := "Email is required"
  const InvalidPhone := "Please enter valid phone number"

  /** The three checks registration and profile update share, in order. */
  function ContactChecks(first: Option<string>, last: Option<string>,
                         email: Option<string>, phone: Option<string>): seq<Check>
  {
    [ Check(Truthy(first) && Truthy(last), NamesRequired),
      Check(Truthy(email), EmailRequired),
      Check(Truthy(phone) && |phone.value| == 10, InvalidPhone) ]
  }

  /** A chain that starts with the contact checks reports names first, then
      email, then the phone number, and only then whatever follows. */
  lemma {:induction false} ContactPrecedence(first: Option<string>, last: Option<string>,
                                             email: Option<string>, phone: Option<string>, rest: seq<Check>)
    ensures !(Truthy(first) && Truthy(last)) ==>
      FirstFailure(ContactChecks(first, last, email, phone) + rest) == Some(NamesRequired)
    ensures Truthy(first) && Truthy(last) && !Truthy(email) ==>
      FirstFailure(ContactChecks(first, last, email, phone) + rest) == Some(EmailRequired)
    ensures Truthy(first) && Truthy(last) && Truthy(email) && !(Truthy(phone) && |phone.value| == 10) ==>
      FirstFailure(ContactChecks(first, last, email, phone) + rest) == Some(InvalidPhone)
    ensures Truthy(first) && Truthy(last) && Truthy(email) && Truthy(phone) && |phone.value| == 10 ==>
      FirstFailure(ContactChecks(first, last, email, phone) + rest) == FirstFailure(rest)
  {
    var c := ContactChecks(first, last, email, phone);
    FirstFailureAppend(c, rest);
    var last3 := c[1..][1..];
    assert last3 == [c[2]] && last3[1..] == [];
    assert FirstFailure(last3) == if c[2].passes then None else Some(InvalidPhone);
  }
}
