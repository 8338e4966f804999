/** The service-state controller and the mutation gate, as the rest of the process shares them. */
module Gate {
  import opened Domain
  import opened World

  class ServiceStateController {
    var current: Service

    constructor (initial: ServiceState)
      ensures current == Service(initial, 0)
    {
      current := Service(initial, 0);
    }

    method Set(next: ServiceState) returns (r: Result<Service, ServiceState>)
      modifies this
      ensures r == SetService(old(current), next)
      // What is refused, and only that, is leaving Quiescing.
      ensures r.Err? <==> old(current).state == Quiescing && next != Quiescing
      ensures r.Ok? ==> r.value == current && current.state == next
      ensures r.Err? ==> r.error == Quiescing && current == old(current)
      // The generation counts the changes.
      ensures old(current).generation <= current.generation <= old(current).generation + 1
      ensures current.generation == old(current).generation <==> current == old(current)
      ensures current.generation == old(current).generation <==> old(current).state in {next, Quiescing}
    {
      if current.state == next { return Ok(current); }
      if current.state == Quiescing { return Err(current.state); }
      current := Service(next, current.generation + 1);
      r := Ok(current);
    }
  }

  function AfterSets(service: Service, requests: seq<ServiceState>): Service
    decreases |requests|
  {
    if requests == [] then service
    else
      match SetService(service, requests[0])
      case Ok(next) => AfterSets(next, requests[1..])
      case Err(_) => AfterSets(service, requests[1..])
  }

  // Over any requests the generation never goes back, stands still only while the state does,
  // and once Quiescing was asked for nothing else is ever seen again.
  lemma {:induction false} GenerationsAreMonotone(service: Service, requests: seq<ServiceState>)
    ensures service.generation <= AfterSets(service, requests).generation
    ensures AfterSets(service, requests).generation == service.generation <==> AfterSets(service, requests) == service
    ensures service.state == Quiescing ==> AfterSets(service, requests) == service
    ensures Quiescing in requests ==> AfterSets(service, requests).state == Quiescing
    decreases |requests|
  {
    if requests != [] {
      var next := match SetService(service, requests[0]) case Ok(s) => s case Err(_) => service;
      GenerationsAreMonotone(next, requests[1..]);
      assert Quiescing in requests ==> requests[0] == Quiescing || Quiescing in requests[1..];
    }
  }

  class MutationGate {
    const service: ServiceStateController
    var closed: bool
    var active: nat

    // The gate is what the world of the task manager sees of it.
    ghost predicate Shows(w: Shared)
      reads this, service
    {
      w.gateClosed == closed && w.gateActive == active && w.service == service.current
    }

    constructor (service: ServiceStateController)
      ensures this.service == service && !closed && active == 0
    {
      this.service, closed, active := service, false, 0;
    }

    // `enter_data_mutation`
    method Enter(ghost w: Shared) returns (admitted: bool)
      requires Shows(w)
      modifies this
      ensures admitted <==> !w.gateClosed && w.service.state == Ready
      ensures active == old(active) + (if admitted then 1 else 0) && closed == old(closed)
      ensures Shows(w.(gateActive := if admitted then w.gateActive + 1 else w.gateActive))
    {
      if closed { return false; }
      if service.current.state != Ready { return false; }
      active := active + 1;
      admitted := true;
    }

    // Dropping a guard. The boolean tells the waiters of `wait_for_idle`.
    method Leave(ghost w: Shared) returns (idle: bool)
      requires Shows(w) && active > 0
      modifies this
      ensures Shows(w.(gateActive := w.gateActive - 1)) && (idle <==> active == 0)
    {
      active := active - 1;
      idle := active == 0;
    }

    // `begin_quiescing`: closes once, and takes the service state with it.
    method BeginQuiescing(ghost w: Shared) returns (first: bool)
      requires Shows(w)
      modifies this, service
      ensures Shows(World.BeginQuiescing(w)) && first == !w.gateClosed && closed && active == old(active)
      ensures first ==> service.current.state == Quiescing
      ensures !first ==> service.current == old(service.current)
    {
      if closed { return false; }
      closed := true;
      var _ := service.Set(Quiescing);
      first := true;
    }
  }

  // Once closed and drained, a gate stays drained whatever the other actors do.
  lemma DrainedForever(w: Shared, step: EnvStep)
    requires WInv(w) && Drained(w)
    ensures Drained(Step(w, step)) && !GateAdmits(Step(w, step))
  {
    StepIsAllowed(w, step);
    hide WInv, Step, RowsStand, SealRely;
  }
}
