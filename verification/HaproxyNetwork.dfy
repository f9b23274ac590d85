/**
 Rewriting the managed frontends of an HAProxy configuration (scripts/configure_haproxy_network.py,
 configure_network): each managed bind gets the bind address and a source restriction, and the
 restrictions of an earlier rewrite go.
 */
module HaproxyNetwork {
  import opened TextLines

  const MANAGED_PORTS: set<int> := {8000, 8001, 8100, 8890}

  /** What the editor sees in a line; the port of a bind is 0 if it cannot be read. */
  datatype Kind =
    | Frontend
    | Bind(indent: string, port: int)
    | Restriction  // the managed acl, or the denial that uses it
    | Other

  type Kinds = string -> Kind

  /** The formatted bind address, and the allowed sources joined by spaces. */
  datatype Network = Network(bind: string, sources: string)

  predicate Managed(k: Kind) { k.Bind? && k.port in MANAGED_PORTS }

  function PortText(port: int): string {
    if port == 8000 then "8000" else if port == 8001 then "8001" else if port == 8100 then "8100" else "8890"
  }

  function BindText(indent: string, net: Network, port: int): string { indent + "bind " + net.bind + ":" + PortText(port) }

  function AclText(indent: string, net: Network): string { indent + "acl atlas_backend_source src " + net.sources }

  function DenyText(indent: string): string { indent + "http-request deny unless atlas_backend_source" }

  function Emitted(k: Kind, net: Network): seq<string>
    requires Managed(k)
  {
    [BindText(k.indent, net, k.port), AclText(k.indent, net), DenyText(k.indent)]
  }

  /** The lines that take the place of a managed bind. */
  lemma EmittedAre(indent: string, net: Network)
    ensures forall port :: port in MANAGED_PORTS <==> port == 8000 || port == 8001 || port == 8100 || port == 8890
    ensures Emitted(Bind(indent, 8000), net)[0] == indent + "bind " + net.bind + ":8000"
    ensures Emitted(Bind(indent, 8001), net)[0] == indent + "bind " + net.bind + ":8001"
    ensures Emitted(Bind(indent, 8100), net)[0] == indent + "bind " + net.bind + ":8100"
    ensures Emitted(Bind(indent, 8890), net)[0] == indent + "bind " + net.bind + ":8890"
    ensures Emitted(Bind(indent, 8000), net)[1..] ==
            [indent + "acl atlas_backend_source src " + net.sources, indent + "http-request deny unless atlas_backend_source"]
  {
  }

  /** A managed bind opens a stretch that ends at the next frontend or at a bind to another port. */
  function ManagedAfter(k: Kind, managed: bool): bool {
    match k case Frontend => false case Bind(_, port) => port in MANAGED_PORTS case _ => managed
  }

  function OneLine(kind: Kinds, line: string, net: Network, managed: bool): seq<string> {
    var k := kind(line);
    if Managed(k) then Emitted(k, net) else if k.Restriction? && managed then [] else [line]
  }

  function Rewritten(kind: Kinds, lines: seq<string>, net: Network, managed: bool): seq<string> {
    if lines == [] then []
    else OneLine(kind, lines[0], net, managed) + Rewritten(kind, lines[1..], net, ManagedAfter(kind(lines[0]), managed))
  }

  function ManagedAtEnd(kind: Kinds, lines: seq<string>, managed: bool): bool {
    if lines == [] then managed else ManagedAtEnd(kind, lines[1..], ManagedAfter(kind(lines[0]), managed))
  }

  function Configured(kind: Kinds, lines: seq<string>, net: Network): seq<string> {
    TrimEnd(Rewritten(kind, lines, net, false))
  }

  method ConfigureNetwork(kind: Kinds, lines: seq<string>, net: Network) returns (r: seq<string>)
    ensures r == Configured(kind, lines, net)
  {
    var output: seq<string> := [];
    var managedFrontend, skipManagedAcl := false, false;
    for i := 0 to |lines|
      invariant output == Rewritten(kind, lines[..i], net, false)
      invariant managedFrontend == skipManagedAcl == ManagedAtEnd(kind, lines[..i], false)
    {
      var line := lines[i];
      var k := kind(line);
      Appended(kind, lines[..i], line, net, false);
      assert lines[..i + 1] == lines[..i] + [line];
      if k.Frontend? {
        managedFrontend, skipManagedAcl := false, false;
      }
      if managedFrontend && k.Restriction? {
        continue;
      }
      if k.Bind? {
        managedFrontend := k.port in MANAGED_PORTS;
        skipManagedAcl := managedFrontend;
        if managedFrontend {
          output := output + [BindText(k.indent, net, k.port), AclText(k.indent, net), DenyText(k.indent)];
          continue;
        }
      }
      if skipManagedAcl && k.Restriction? {
        continue;
      }
      output := output + [line];
    }
    assert lines[..|lines|] == lines;
    return TrimEnd(output);
  }

  lemma Unfolded(kind: Kinds, line: string, rest: seq<string>, net: Network, managed: bool)
    ensures Rewritten(kind, [line] + rest, net, managed) ==
            OneLine(kind, line, net, managed) + Rewritten(kind, rest, net, ManagedAfter(kind(line), managed))
    ensures ManagedAtEnd(kind, [line] + rest, managed) == ManagedAtEnd(kind, rest, ManagedAfter(kind(line), managed))
  {
    assert ([line] + rest)[1..] == rest;
  }

  lemma Reassociate(a: seq<string>, b: seq<string>, c: seq<string>)
    ensures a + (b + c) == (a + b) + c
  {
  }

  lemma {:induction false} Joined(kind: Kinds, a: seq<string>, b: seq<string>, net: Network, managed: bool)
    ensures Rewritten(kind, a + b, net, managed) ==
            Rewritten(kind, a, net, managed) + Rewritten(kind, b, net, ManagedAtEnd(kind, a, managed))
    ensures ManagedAtEnd(kind, a + b, managed) == ManagedAtEnd(kind, b, ManagedAtEnd(kind, a, managed))
  {
    if a == [] {
      assert a + b == b;
    } else {
      var line, rest, next := a[0], a[1..], ManagedAfter(kind(a[0]), managed);
      assert a + b == [line] + (rest + b) && a == [line] + rest;
      Unfolded(kind, line, rest + b, net, managed);
      Unfolded(kind, line, rest, net, managed);
      Joined(kind, rest, b, net, next);
      Reassociate(OneLine(kind, line, net, managed), Rewritten(kind, rest, net, next),
                  Rewritten(kind, b, net, ManagedAtEnd(kind, rest, next)));
    }
  }

  /** A frontend without a managed bind stays as it is, restrictions included, whatever comes before it. */
  lemma {:induction false} OtherFrontendsStay(kind: Kinds, frontend: string, block: seq<string>, net: Network, managed: bool)
    requires kind(frontend).Frontend? && forall i :: 0 <= i < |block| ==> !Managed(kind(block[i]))
    ensures Rewritten(kind, [frontend] + block, net, managed) == [frontend] + block
  {
    Unfolded(kind, frontend, block, net, managed);
    UnmanagedStays(kind, block, net);
  }

  lemma {:induction false} UnmanagedStays(kind: Kinds, block: seq<string>, net: Network)
    requires forall i :: 0 <= i < |block| ==> !Managed(kind(block[i]))
    ensures Rewritten(kind, block, net, false) == block
  {
    if block != [] {
      assert block == [block[0]] + block[1..];
      UnmanagedStays(kind, block[1..], net);
    }
  }

  lemma Single(kind: Kinds, line: string, net: Network, managed: bool)
    ensures Rewritten(kind, [line], net, managed) == OneLine(kind, line, net, managed)
    ensures ManagedAtEnd(kind, [line], managed) == ManagedAfter(kind(line), managed)
  {
    assert [line][1..] == [];
  }

  lemma Appended(kind: Kinds, lines: seq<string>, line: string, net: Network, managed: bool)
    ensures Rewritten(kind, lines + [line], net, managed) ==
            Rewritten(kind, lines, net, managed) + OneLine(kind, line, net, ManagedAtEnd(kind, lines, managed))
    ensures ManagedAtEnd(kind, lines + [line], managed) == ManagedAfter(kind(line), ManagedAtEnd(kind, lines, managed))
  {
    Joined(kind, lines, [line], net, managed);
    Single(kind, line, net, ManagedAtEnd(kind, lines, managed));
  }

  // ---------------------------------------------------------------- what is written is read back

  /** White space at the end of a line says nothing, and the lines this editor writes are recognized. */
  ghost predicate Classifies(kind: Kinds, net: Network) {
    && (forall line :: kind(Rstrip(line)) == kind(line)) && kind("") == Other
    && (forall line :: Managed(kind(line)) ==> Recognized(kind, kind(line), net))
  }

  ghost predicate Recognized(kind: Kinds, k: Kind, net: Network)
    requires Managed(k)
  {
    && kind(BindText(k.indent, net, k.port)) == k
    && kind(AclText(k.indent, net)) == Restriction && kind(DenyText(k.indent)) == Restriction
    && Rstrip(DenyText(k.indent)) == DenyText(k.indent) != ""
  }

  lemma EmittedAgain(kind: Kinds, k: Kind, first: Network, second: Network, managed: bool)
    requires Managed(k) && Recognized(kind, k, first)
    ensures Rewritten(kind, Emitted(k, first), second, managed) == Emitted(k, second)
    ensures ManagedAtEnd(kind, Emitted(k, first), managed)
  {
    var bind, acl, deny := BindText(k.indent, first, k.port), AclText(k.indent, first), DenyText(k.indent);
    assert Emitted(k, first) == [bind] + ([acl] + [deny]);
    Unfolded(kind, bind, [acl] + [deny], second, managed);
    Unfolded(kind, acl, [deny], second, true);
    Single(kind, deny, second, true);
    assert Emitted(k, second) + ([] + []) == Emitted(k, second);
  }

  lemma {:induction false} RewrittenAgain(kind: Kinds, lines: seq<string>, first: Network, second: Network, managed: bool)
    requires Classifies(kind, first)
    ensures Rewritten(kind, Rewritten(kind, lines, first, managed), second, managed) == Rewritten(kind, lines, second, managed)
  {
    if lines != [] {
      var line, k := lines[0], kind(lines[0]);
      var once := OneLine(kind, line, first, managed);
      var rest := Rewritten(kind, lines[1..], first, ManagedAfter(k, managed));
      RewrittenAgain(kind, lines[1..], first, second, ManagedAfter(k, managed));
      Joined(kind, once, rest, second, managed);
      if Managed(k) {
        EmittedAgain(kind, k, first, second, managed);
      } else if !(k.Restriction? && managed) {
        Single(kind, line, second, managed);
      }
    }
  }

  lemma LastLineStripped(kind: Kinds, lines: seq<string>, last: string, net: Network)
    requires Classifies(kind, net)
    ensures Configured(kind, lines + [Rstrip(last)], net) == Configured(kind, lines + [last], net)
    ensures Rstrip(last) == "" ==> Configured(kind, lines + [last], net) == Configured(kind, lines, net)
  {
    assert kind(Rstrip(last)) == kind(last);
    Appended(kind, lines, last, net, false);
    Appended(kind, lines, Rstrip(last), net, false);
    TrimAppended(Rewritten(kind, lines, net, false), last);
    TrimAppended(Rewritten(kind, lines, net, false), Rstrip(last));
    RstripTwice(last);
  }

  lemma {:induction false} ConfiguredTrimmed(kind: Kinds, lines: seq<string>, net: Network)
    requires Classifies(kind, net)
    ensures Configured(kind, TrimEnd(lines), net) == Configured(kind, lines, net)
    decreases |lines|
  {
    if lines != [] {
      var rest, last := lines[..|lines| - 1], lines[|lines| - 1];
      assert lines == rest + [last];
      LastLineStripped(kind, rest, last, net);
      if Rstrip(last) == "" {
        ConfiguredTrimmed(kind, rest, net);
      }
    }
  }

  /** The last network wins; the same one twice changes nothing more. */
  lemma LastNetworkWins(kind: Kinds, lines: seq<string>, first: Network, second: Network)
    requires Classifies(kind, first) && Classifies(kind, second)
    ensures Configured(kind, Configured(kind, lines, first), second) == Configured(kind, lines, second)
  {
    ConfiguredTrimmed(kind, Rewritten(kind, lines, first, false), second);
    RewrittenAgain(kind, lines, first, second, false);
  }

  // ---------------------------------------------------------------- what a configuration then says

  ghost predicate RestrictedAt(kind: Kinds, lines: seq<string>, net: Network, i: nat)
    requires i < |lines|
  {
    Managed(kind(lines[i])) ==>
      i + 2 < |lines| && lines[i..i + 3] == Emitted(kind(lines[i]), net)
  }

  /** Every managed bind is to the network's address and directly followed by its restriction. */
  ghost predicate Restricted(kind: Kinds, lines: seq<string>, net: Network) {
    forall i :: 0 <= i < |lines| ==> RestrictedAt(kind, lines, net, i)
  }

  lemma RestrictedJoins(kind: Kinds, a: seq<string>, b: seq<string>, net: Network)
    requires Restricted(kind, a, net) && Restricted(kind, b, net)
    ensures Restricted(kind, a + b, net)
  {
    var all := a + b;
    forall i | 0 <= i < |all|
      ensures RestrictedAt(kind, all, net, i)
    {
      if i < |a| {
        assert RestrictedAt(kind, a, net, i);
        assert i + 2 < |a| ==> all[i..i + 3] == a[i..i + 3];
      } else {
        assert RestrictedAt(kind, b, net, i - |a|);
        assert i + 2 < |all| ==> all[i..i + 3] == b[i - |a|..i - |a| + 3];
      }
    }
  }

  lemma {:induction false} RewrittenIsRestricted(kind: Kinds, lines: seq<string>, net: Network, managed: bool)
    requires Classifies(kind, net)
    ensures Restricted(kind, Rewritten(kind, lines, net, managed), net)
  {
    if lines != [] {
      RewrittenIsRestricted(kind, lines[1..], net, ManagedAfter(kind(lines[0]), managed));
      var one := OneLine(kind, lines[0], net, managed);
      if Managed(kind(lines[0])) {
        assert one[0..3] == one;
      }
      RestrictedJoins(kind, one, Rewritten(kind, lines[1..], net, ManagedAfter(kind(lines[0]), managed)), net);
    }
  }

  lemma {:induction false} TrimIsRestricted(kind: Kinds, lines: seq<string>, net: Network)
    requires Classifies(kind, net) && Restricted(kind, lines, net)
    ensures Restricted(kind, TrimEnd(lines), net)
    decreases |lines|
  {
    if lines != [] {
      var rest, last := lines[..|lines| - 1], lines[|lines| - 1];
      var stripped := rest + [Rstrip(last)];
      assert kind(Rstrip(last)) == kind(last);
      forall i | 0 <= i < |stripped|
        ensures RestrictedAt(kind, stripped, net, i)
        ensures Rstrip(last) == "" && i < |rest| ==> RestrictedAt(kind, rest, net, i)
      {
        assert RestrictedAt(kind, lines, net, i);
        if Managed(kind(lines[i])) {
          assert lines[i + 2] == lines[i..i + 3][2];
          assert stripped[i..i + 3] == lines[i..i + 3];
          assert Rstrip(last) == "" ==> rest[i..i + 3] == lines[i..i + 3];
        }
      }
      if Rstrip(last) == "" {
        TrimIsRestricted(kind, rest, net);
      }
    }
  }

  lemma ConfiguredIsRestricted(kind: Kinds, lines: seq<string>, net: Network)
    requires Classifies(kind, net)
    ensures Restricted(kind, Configured(kind, lines, net), net)
  {
    RewrittenIsRestricted(kind, lines, net, false);
    TrimIsRestricted(kind, Rewritten(kind, lines, net, false), net);
  }

  /** All lines but the managed binds and their restrictions. */
  function Unmanaged(kind: Kinds, lines: seq<string>, managed: bool): seq<string> {
    if lines == [] then [] else
    var k, rest := kind(lines[0]), Unmanaged(kind, lines[1..], ManagedAfter(kind(lines[0]), managed));
    if Managed(k) || (k.Restriction? && managed) then rest else [lines[0]] + rest
  }

  lemma Dropped(kind: Kinds, line: string, rest: seq<string>, managed: bool)
    requires Managed(kind(line)) || (kind(line).Restriction? && managed)
    ensures Unmanaged(kind, [line] + rest, managed) == Unmanaged(kind, rest, true)
  {
    assert ([line] + rest)[1..] == rest;
  }

  lemma UnmanagedEmitted(kind: Kinds, k: Kind, net: Network, rest: seq<string>, managed: bool)
    requires Managed(k) && Recognized(kind, k, net)
    ensures Unmanaged(kind, Emitted(k, net) + rest, managed) == Unmanaged(kind, rest, true)
  {
    var bind, acl, deny := BindText(k.indent, net, k.port), AclText(k.indent, net), DenyText(k.indent);
    assert Emitted(k, net) + rest == [bind] + ([acl] + ([deny] + rest));
    Dropped(kind, bind, [acl] + ([deny] + rest), managed);
    Dropped(kind, acl, [deny] + rest, true);
    Dropped(kind, deny, rest, true);
  }

  lemma {:induction false} RewritingKeepsOthers(kind: Kinds, lines: seq<string>, net: Network, managed: bool)
    requires Classifies(kind, net)
    ensures Unmanaged(kind, Rewritten(kind, lines, net, managed), managed) == Unmanaged(kind, lines, managed)
  {
    if lines != [] {
      var line, k := lines[0], kind(lines[0]);
      var rest := Rewritten(kind, lines[1..], net, ManagedAfter(k, managed));
      RewritingKeepsOthers(kind, lines[1..], net, ManagedAfter(k, managed));
      if Managed(k) {
        UnmanagedEmitted(kind, k, net, rest, managed);
      } else if k.Restriction? && managed {
        assert Rewritten(kind, lines, net, managed) == rest;
      } else {
        assert ([line] + rest)[1..] == rest;
      }
    }
  }

  lemma {:induction false} UnmanagedAppended(kind: Kinds, lines: seq<string>, line: string, managed: bool)
    ensures Unmanaged(kind, lines + [line], managed) ==
            if Managed(kind(line)) || (kind(line).Restriction? && ManagedAtEnd(kind, lines, managed)) then Unmanaged(kind, lines, managed)
            else Unmanaged(kind, lines, managed) + [line]
  {
    if lines == [] {
      assert lines + [line] == [line] && [line][1..] == [];
    } else {
      assert (lines + [line])[1..] == lines[1..] + [line];
      UnmanagedAppended(kind, lines[1..], line, ManagedAfter(kind(lines[0]), managed));
    }
  }

  lemma {:induction false} UnmanagedTrimmed(kind: Kinds, lines: seq<string>)
    requires (forall line :: kind(Rstrip(line)) == kind(line)) && kind("") == Other
    ensures TrimEnd(Unmanaged(kind, TrimEnd(lines), false)) == TrimEnd(Unmanaged(kind, lines, false))
    decreases |lines|
  {
    if lines != [] {
      var rest, last := lines[..|lines| - 1], lines[|lines| - 1];
      assert lines == rest + [last] && kind(Rstrip(last)) == kind(last);
      UnmanagedAppended(kind, rest, last, false);
      UnmanagedAppended(kind, rest, Rstrip(last), false);
      TrimAppended(Unmanaged(kind, rest, false), last);
      TrimAppended(Unmanaged(kind, rest, false), Rstrip(last));
      RstripTwice(last);
      if Rstrip(last) == "" {
        UnmanagedTrimmed(kind, rest);
      }
    }
  }

  /** Nothing else is touched: the other lines stay, in their order, up to white space at the end. */
  lemma OtherLinesStay(kind: Kinds, lines: seq<string>, net: Network)
    requires Classifies(kind, net)
    ensures TrimEnd(Unmanaged(kind, Configured(kind, lines, net), false)) == TrimEnd(Unmanaged(kind, lines, false))
  {
    UnmanagedTrimmed(kind, Rewritten(kind, lines, net, false));
    RewritingKeepsOthers(kind, lines, net, false);
  }
}
