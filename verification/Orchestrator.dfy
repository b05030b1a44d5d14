/** The Firecracker orchestrator: starting the process, the configuration requests
    over its API socket, and stopping it. */
module Orchestrator {
  import opened Common

  /** The API requests of one boot, in order. */
  datatype Request = MachineConfig | BootSource | RootDrive | NetworkInterface | InstanceStart

  const BOOT: seq<Request> := [MachineConfig, BootSource, RootDrive, NetworkInterface, InstanceStart]

  /** What the host answers to one boot: whether the process can be spawned, at which
      polls the socket it makes is there, and which requests are acknowledged. */
  datatype Answers = Answers(spawns: bool, socketAt: nat -> bool, acks: nat -> bool)

  /** The socket is seen within twenty polls. */
  ghost predicate SocketSeen(host: Answers) { exists i: nat :: i < 20 && host.socketAt(i) }

  ghost predicate AllAcked(host: Answers, k: nat) { forall i: nat :: i < k ==> host.acks(i) }

  class Orchestrator {
    var started: bool           // the process handle exists
    var running: bool           // the process has not exited
    var socket: bool            // the API socket file exists
    ghost var ready: bool       // StartProcess has seen the socket
    ghost var acked: seq<Request>
    ghost var signalled: bool

    /** Requests are acknowledged in boot order, none of them twice, and none
        before StartProcess has seen the socket. */
    ghost predicate Valid()
      reads this
    {
      acked <= BOOT && (acked != [] ==> ready) && (ready ==> started) && (running ==> started)
    }

    constructor (stale: bool)
      ensures Valid() && !started && !running && !ready && acked == [] && !signalled && socket == stale
    {
      started, running, socket := false, false, stale;
      ready, acked, signalled := false, [], false;
    }

    /** The process may exit at any time. */
    method Meanwhile()
      requires Valid()
      modifies this`running
      ensures Valid() && (running ==> old(running))
    {
      var exits := Chance();
      if exits { running := false; }
    }

    /** Remove a stale socket, spawn, and poll for the socket; a timeout stops the
        process again. */
    method StartProcess(host: Answers) returns (ok: bool)
      requires Valid() && !started
      modifies this
      ensures Valid() && acked == [] && ok == ready
      ensures ok <==> host.spawns && SocketSeen(host)
      ensures !ok ==> (running ==> signalled) && (started ==> signalled) && !socket
      ensures started <==> host.spawns
      ensures ok ==> socket && signalled == old(signalled)
    {
      socket, acked, ready := false, [], false;
      if !host.spawns { return false; }
      started, running := true, true;
      var i := 0;
      while i < 20
        invariant Valid() && started && !ready && acked == [] && signalled == old(signalled)
        invariant i <= 20 && !socket && forall j: nat :: j < i ==> !host.socketAt(j)
      {
        Meanwhile();
        if host.socketAt(i) { socket := true; }
        if socket {
          ready := true;
          return true;
        }
        i := i + 1;
      }
      Stop();
      return false;
    }

    /** PUT one request; it may be refused, or be lost. */
    method Put(r: Request, ack: bool) returns (ok: bool)
      requires Valid() && ready && acked + [r] <= BOOT
      modifies this`acked, this`running
      ensures Valid() && ok == ack
      ensures acked == if ok then old(acked) + [r] else old(acked)
    {
      Meanwhile();
      if ack { acked := acked + [r]; }
      return ack;
    }

    method Configure(host: Answers) returns (ok: bool)
      requires Valid() && ready && acked == []
      modifies this`acked, this`running
      ensures Valid() && acked <= [MachineConfig, BootSource, RootDrive]
      ensures ok <==> acked == [MachineConfig, BootSource, RootDrive]
      ensures ok <==> AllAcked(host, 3)
    {
      ok := Put(MachineConfig, host.acks(0));
      if !ok { return; }
      ok := Put(BootSource, host.acks(1));
      if !ok { return; }
      ok := Put(RootDrive, host.acks(2));
    }

    method ConfigureNetwork(host: Answers) returns (ok: bool)
      requires Valid() && ready && acked == BOOT[..3]
      modifies this`acked, this`running
      ensures Valid() && ok == host.acks(3)
      ensures acked == if ok then old(acked) + [NetworkInterface] else old(acked)
    {
      assert BOOT[..3] + [NetworkInterface] == BOOT[..4];
      ok := Put(NetworkInterface, host.acks(3));
    }

    method StartVM(host: Answers) returns (ok: bool)
      requires Valid() && ready && acked == BOOT[..4]
      modifies this`acked, this`running
      ensures Valid() && ok == host.acks(4)
      ensures acked == if ok then old(acked) + [InstanceStart] else old(acked)
    {
      assert BOOT[..4] + [InstanceStart] == BOOT;
      ok := Put(InstanceStart, host.acks(4));
    }

    /** SIGTERM, then SIGKILL after a second; the socket file is removed. An
        orchestrator that never started a process does nothing, and no stop ever
        returns an error. */
    method Stop()
      requires Valid()
      modifies this`running, this`socket, this`signalled
      ensures Valid() && (started ==> signalled && !socket)
      ensures !started ==> running == old(running) && socket == old(socket) && signalled == old(signalled)
      ensures running ==> old(running)
    {
      if !started { return; }
      signalled := true;
      Meanwhile();
      socket := false;
    }

    /** Stages 4 to 7 of LaunchVM, with the process side of their rollback. It boots
        exactly if the process can be spawned, one of twenty polls sees its own socket,
        not a stale one, and all five requests are acknowledged, which they are in
        order; otherwise a process that was started has been told to stop. */
    method Boot(host: Answers) returns (ok: bool)
      requires Valid() && !started && !signalled
      modifies this
      ensures Valid()
      ensures ok <==> host.spawns && SocketSeen(host) && AllAcked(host, 5)
      ensures ok <==> ready && acked == [MachineConfig, BootSource, RootDrive, NetworkInterface, InstanceStart]
      ensures ok ==> socket && !signalled
      ensures started <==> host.spawns
      ensures !ok && started ==> signalled && !socket
    {
      ok := StartProcess(host);
      if !ok { return; }
      ok := Configure(host);
      if !ok {
        Stop();
        return;
      }
      assert BOOT[..3] == [MachineConfig, BootSource, RootDrive];
      ok := ConfigureNetwork(host);
      if !ok {
        Stop();
        return;
      }
      assert acked == BOOT[..4];
      ok := StartVM(host);
      if !ok {
        Stop();
        return;
      }
    }
  }
}
