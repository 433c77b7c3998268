/** The signalling link and its parameter-based admission controller, field by field. */
module SaLink {
  import opened Reservation

  class ParamAdc {
    const utilization: real
    const bandwidth: real
    var resvRate: real

    constructor (utilization: real, bandwidth: real)
      ensures this.utilization == utilization && this.bandwidth == bandwidth && resvRate == 0.0
    {
      this.utilization, this.bandwidth, resvRate := utilization, bandwidth, 0.0;
    }

    function Limit(): real {
      utilization * bandwidth
    }

    method AdmitFlow(r: real) returns (decide: bool)
      modifies this
      ensures decide <==> old(resvRate) + r <= Limit()
      ensures resvRate == if decide then old(resvRate) + r else old(resvRate)
    {
      if resvRate + r <= utilization * bandwidth {
        resvRate := resvRate + r;
        return true;
      }
      return false;
    }

    method RejAction(p: real)
      modifies this
      ensures resvRate == old(resvRate) - p
    {
      resvRate := resvRate - p;
    }

    method TeardownAction(p: real)
      modifies this
      ensures resvRate == old(resvRate) - p
    {
      resvRate := resvRate - p;
    }
  }

  datatype Kind = Request | Accept | Reject | Confirm | Teardown | Other

  class SaLink {
    const adc: ParamAdc
    const pending: array<int>
    var numfl: int

    ghost predicate Valid()
    {
      pending.Length == NFLOWS
    }

    /** Whose rate each change of the reserved rate was. */
    ghost var ledger: map<int, real>

    ghost function State(): Link
      reads this, adc, pending
    {
      Link(pending[..], adc.resvRate, numfl, ledger)
    }

    constructor (adc: ParamAdc)
      ensures Valid() && this.adc == adc && fresh(pending)
      ensures State() == Link(seq(NFLOWS, _ => -1), adc.resvRate, -1, map[])
    {
      this.adc, numfl, ledger := adc, -1, map[];
      pending := new int[NFLOWS](_ => -1);
    }

    /** The first slot naming `flowid`, or -1. */
    method FindSlot(flowid: int) returns (j: int)
      requires Valid()
      ensures j == Lookup(pending[..], flowid)
    {
      var i := 0;
      while i < NFLOWS
        invariant 0 <= i <= NFLOWS && flowid !in pending[..i]
      {
        if pending[i] == flowid {
          LookupIs(pending[..], flowid, i);
          return i;
        }
        i := i + 1;
      }
      assert pending[..i] == pending[..];
      return -1;
    }

    /** A free slot, or -1: where there is none the program ends. */
    method GetNxt() returns (j: int)
      requires Valid()
      ensures j == Lookup(pending[..], -1)
    {
      var i := 0;
      while i < NFLOWS
        invariant 0 <= i <= NFLOWS && -1 !in pending[..i]
      {
        if pending[i] == -1 {
          LookupIs(pending[..], -1, i);
          return i;
        }
        i := i + 1;
      }
      assert pending[..i] == pending[..];
      return -1;
    }

    /** A signalling packet passes the link; the results are its decision bit afterwards and whether the program ends. */
    method Recv(kind: Kind, flowid: int, rate: real, decision: bool) returns (ok: bool, exit: bool)
      requires Valid()
      modifies this, adc, pending
      ensures Valid() && (exit ==> kind.Request?)
      ensures match kind
        case Request =>
          (match OnRequest(old(State()), adc.Limit(), flowid, rate)
           case Exit => exit
           case Passed(link, decide) => !exit && State() == link && ok == (decision && decide))
        case Confirm => State() == OnConfirm(old(State()), flowid, rate, decision) && ok == decision
        case Teardown => State() == OnTeardown(old(State()), flowid, rate) && ok == decision
        case _ => State() == old(State()) && ok == decision
    {
      hide Lookup;
      ok, exit := decision, false;
      match kind
      case Request =>
        ghost var before := State();
        var decide := adc.AdmitFlow(rate);
        ok := ok && decide;
        if decide {
          var j := GetNxt();
          if j == -1 {
            exit := true;
            return;
          }
          pending[j] := flowid;
          numfl := numfl + 1;
          ledger := Post(before, flowid, rate);
        }
      case Confirm =>
        var j := FindSlot(flowid);
        if j != -1 {
          if !ok {
            ledger := Post(State(), flowid, -rate);
            adc.RejAction(rate);
            numfl := numfl - 1;
          }
          pending[j] := -1;
        }
      case Teardown =>
        ledger := Post(State(), flowid, -rate);
        adc.TeardownAction(rate);
        numfl := numfl - 1;
      case _ =>
    }
  }

  lemma LookupIs(pending: seq<int>, id: int, j: nat)
    requires j < |pending| && pending[j] == id && id !in pending[..j]
    ensures Lookup(pending, id) == j
  {
    var i := Lookup(pending, id);
    assert forall k | 0 <= k < j :: pending[..j][k] == pending[k];
    assert i >= 0 ==> forall k | 0 <= k < i :: pending[..i][k] == pending[k];
    assert pending[j] in pending;
  }
}
