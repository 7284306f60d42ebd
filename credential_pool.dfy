/**
  The credential manager as the retry loop of google_chat_api.py sees it.

  Its own source is not part of this model, so this module gives it the
  smallest behaviour consistent with how the retry loop uses it: a ring of
  credential files with a cursor, a "disabled" flag per file, an oracle of
  token-refresh outcomes and a log of `record_api_call_result` calls.
*/
module CredentialPool {
  import opened Wrappers

  /** The fields of a credential file that request preparation reads. */
  datatype CredData = CredData(token: string, accessToken: string, projectId: string)

  datatype Credential = Credential(name: string, data: CredData, disabled: bool)

  /** One `record_api_call_result(file, success, code)` call. */
  datatype CallResult = CallResult(file: string, success: bool, code: Option<int>)

  /** What `get_valid_credential` hands back: the file name and its data. */
  datatype Acquired = Acquired(name: string, data: CredData)

  datatype PoolState = PoolState(
    creds: seq<Credential>,
    cursor: nat,
    refreshOutcomes: seq<bool>,   // oracle: results of successive token refreshes
    calls: seq<CallResult>)

  /** Index of the first enabled credential in `creds[lo..hi]`. */
  function FirstEnabled(creds: seq<Credential>, lo: nat, hi: nat): (r: Option<nat>)
    requires lo <= hi <= |creds|
    ensures r.Some? ==> lo <= r.value < hi && !creds[r.value].disabled
    decreases hi - lo
  {
    if lo == hi then None
    else if !creds[lo].disabled then Some(lo)
    else FirstEnabled(creds, lo + 1, hi)
  }

  /** Search order of `get_valid_credential`: from the cursor to the end, then from the start. */
  function FindEnabled(creds: seq<Credential>, cursor: nat): (r: Option<nat>)
    requires |creds| > 0
  {
    var s := cursor % |creds|;
    match FirstEnabled(creds, s, |creds|)
    case Some(j) => Some(j)
    case None => FirstEnabled(creds, 0, s)
  }

  /** `get_valid_credential`: the enabled credential at or after the cursor, which moves onto it. */
  function GetValid(p: PoolState): (Option<Acquired>, PoolState)
  {
    if |p.creds| == 0 then (None, p)
    else match FindEnabled(p.creds, p.cursor)
      case None => (None, p)
      case Some(j) => (Some(Acquired(p.creds[j].name, p.creds[j].data)), p.(cursor := j))
  }

  /** `force_rotate_credential`: move the cursor one step round the ring. */
  function Rotate(p: PoolState): PoolState
  {
    if |p.creds| == 0 then p else p.(cursor := (p.cursor + 1) % |p.creds|)
  }

  function DisableAll(creds: seq<Credential>, name: string): (r: seq<Credential>)
    ensures |r| == |creds|
    ensures forall i :: 0 <= i < |r| ==> r[i].name == creds[i].name && r[i].data == creds[i].data
    ensures forall i :: 0 <= i < |r| ==> r[i].disabled == (creds[i].disabled || creds[i].name == name)
  {
    if creds == [] then []
    else
      var rest := DisableAll(creds[1..], name);
      var r := [creds[0].(disabled := creds[0].disabled || creds[0].name == name)] + rest;
      assert forall i :: 0 < i < |r| ==> r[i] == rest[i - 1] && creds[i] == creds[1..][i - 1];
      r
  }

  /** `set_cred_disabled(name, True)`. */
  function SetDisabled(p: PoolState, name: string): PoolState
  {
    p.(creds := DisableAll(p.creds, name))
  }

  /** `force_refresh_current_token`: its success comes from the oracle; an exhausted oracle fails. */
  function ForceRefresh(p: PoolState): (bool, PoolState)
  {
    if |p.refreshOutcomes| == 0 then (false, p)
    else (p.refreshOutcomes[0], p.(refreshOutcomes := p.refreshOutcomes[1..]))
  }

  /** `record_api_call_result(file, success, code)`. */
  function Record(p: PoolState, file: string, success: bool, code: Option<int>): PoolState
  {
    p.(calls := p.calls + [CallResult(file, success, code)])
  }

  ghost predicate AllDisabled(creds: seq<Credential>)
  {
    forall i :: 0 <= i < |creds| ==> creds[i].disabled
  }

  lemma {:induction false} FirstEnabledNone(creds: seq<Credential>, lo: nat, hi: nat)
    requires lo <= hi <= |creds|
    requires FirstEnabled(creds, lo, hi).None?
    ensures forall i :: lo <= i < hi ==> creds[i].disabled
    decreases hi - lo
  {
    if lo < hi {
      FirstEnabledNone(creds, lo + 1, hi);
    }
  }

  /**
    `get_valid_credential` never hands out a disabled credential, and it
    finds nothing exactly when every credential is disabled.
  */
  lemma {:induction false} GetValidSound(p: PoolState)
    ensures GetValid(p).0.Some? ==>
      var j := GetValid(p).1.cursor;
      j < |p.creds| && !p.creds[j].disabled &&
      GetValid(p).0.value == Acquired(p.creds[j].name, p.creds[j].data)
    ensures GetValid(p).0.None? <==> AllDisabled(p.creds)
    ensures GetValid(p).1.creds == p.creds && GetValid(p).1.calls == p.calls
    ensures GetValid(p).1.refreshOutcomes == p.refreshOutcomes
  {
    var n := |p.creds|;
    if n > 0 && FindEnabled(p.creds, p.cursor).None? {
      var s := p.cursor % n;
      FirstEnabledNone(p.creds, s, n);
      FirstEnabledNone(p.creds, 0, s);
    }
  }

  /** Once a file is disabled, `get_valid_credential` does not return it until it is re-enabled. */
  lemma {:induction false} DisabledNeverAcquired(p: PoolState, name: string)
    ensures var r := GetValid(SetDisabled(p, name)).0;
      r.Some? ==> r.value.name != name
  {
    GetValidSound(SetDisabled(p, name));
  }

  /** The credential manager as an object that the retry loop updates in place. */
  class Pool {
    var creds: seq<Credential>
    var cursor: nat
    var refreshOutcomes: seq<bool>
    var calls: seq<CallResult>

    function Model(): PoolState
      reads this
    {
      PoolState(creds, cursor, refreshOutcomes, calls)
    }

    constructor (initial: PoolState)
      ensures Model() == initial
    {
      creds, cursor := initial.creds, initial.cursor;
      refreshOutcomes, calls := initial.refreshOutcomes, initial.calls;
    }

    method GetValidCredential() returns (r: Option<Acquired>)
      modifies this
      ensures (r, Model()) == GetValid(old(Model()))
    {
      var res := GetValid(Model());
      r, cursor := res.0, res.1.cursor;
    }

    method ForceRotateCredential()
      modifies this
      ensures Model() == Rotate(old(Model()))
    {
      if |creds| > 0 {
        cursor := (cursor + 1) % |creds|;
      }
    }

    method SetCredDisabled(name: string)
      modifies this
      ensures Model() == SetDisabled(old(Model()), name)
    {
      creds := DisableAll(creds, name);
    }

    method ForceRefreshCurrentToken() returns (ok: bool)
      modifies this
      ensures (ok, Model()) == ForceRefresh(old(Model()))
    {
      if |refreshOutcomes| == 0 {
        ok := false;
      } else {
        ok := refreshOutcomes[0];
        refreshOutcomes := refreshOutcomes[1..];
      }
    }

    method RecordApiCallResult(file: string, success: bool, code: Option<int>)
      modifies this
      ensures Model() == Record(old(Model()), file, success, code)
    {
      calls := calls + [CallResult(file, success, code)];
    }
  }
}
