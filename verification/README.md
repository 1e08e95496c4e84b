# A verified model of the AtlanticWave/SDX controller

The SDX controller takes a participant's request for a tunnel or a multipoint LAN, finds switches, free VLANs
and bandwidth for it, reserves them, compiles the request into per-switch rules and ships the rules to local
controllers, which translate them into OpenFlow flows. This project models that chain in Dafny and proves what
it does, from the reservation books to the frames that leave the network:

* the allocator: reservations on nodes and edges, the path, tree and VLAN searches, and the rule manager's
  installs, removals and timed installs, with conservation over every run (`PathResources.dfy`,
  `TopologyManager.dfy`, `RuleManager.dfy`, `FailedRuns.dfy`, `Bandwidths.dfy`);
* Steiner trees: Kruskal on distances, union of shortest paths, Prim and recursive trimming, with the factor-two
  bound (`Graphs.dfy`, `MinimumTree.dfy`, `Prim.dfy`, `SteinerTree.dfy`);
* compilation: tunnels, multipoint LANs and learned destinations into rules, rules into flows, and a packet
  semantics for the flows after OpenFlow 1.3.2, sections 5.1, 5.3, 5.9 and 5.11 (`OpenFlow.dfy`,
  `RyuTranslate.dfy`, `L2Tunnel.dfy`, `TunnelIsolation.dfy`, `TunnelDelivery.dfy`, `CorsaLimiter.dfy`,
  `CorsaDelivery.dfy`, `L2Multipoint.dfy`, `MultipointFlows.dfy`, `TreeSides.dfy`, `Flooding.dfy`, `EdgePorts.dfy`,
  `CommonFlows.dfy`, `LearnedDestination.dfy`), up to what tunnels and LANs do side by side on the same switches (`BuiltLans.dfy`,
  `Coexistence.dfy`, `LanClash.dfy`);
* the connection protocol between the SDX controller and a local controller, over all interleavings, with
  safety of every run and arrival of every fair run (`Runs.dfy`, `SdxProtocol.dfy`);
* codecs and clean-up: VLAN ranges, length-prefixed framing, the SENSE database (`VlanRanges.dfy`, `Framing.dfy`,
  `SenseSanitize.dfy`).

## How it is modelled

Objects that the program updates are classes with the same fields: the topology manager, the rule manager, the
policies, graphs under construction, connections. Loops are loops. The protocol between two threads on two
machines is a step relation. Edges are unordered pairs, because networkx keeps one dictionary per edge, and a
port is read from a switch's list of cables. A *meter* is one of the counters the topology keeps (bandwidth on
an edge, a VLAN on an edge, a VLAN on a node); a resource says what it takes from every meter, so that
conservation is one statement about sums.

Shortest-path searches of the graph library are parameters with their specification as precondition
(`FindsShortest`, `FindsHops`, the list of candidate paths). The clock, the authorization answer and the pieces
a socket returns are parameters or arbitrary choices. Where several flows of a table match a frame with equal priority,
the first listed is taken; the delivery theorems do not depend on that, because all such flows say the same. Only what
an edge port shows to the controller does, and that is stated as such (`ShownIff`).

Each of the following is proved with its exact condition, because the plain statement does not hold of the code;
a lemma or method at a concrete input shows that it fails:

* A rule's reservations are not one transaction. A rule is refused exactly if its time has come and there is no
  room for all it needs (`AddRule`, with `RoomForAll` a condition on the books before the call). What was reserved
  by then stays reserved, so counters that equalled the sums over the active rules still do exactly if what comes
  before the first resource that does not fit takes nothing (`FailedAddLeaks` runs into it). The timer callback
  raises exactly if there is no room for everything the due rules need, and then the counters are right exactly if
  what is missing takes nothing, and the timer, which is not set anew, is right exactly if the next waiting rule had
  to start when the first one had to (`RuleInstallTimerCb`). A removal raises exactly if the rule is active and not
  all its resources are on the counters (`RemoveRule`). `FailedCallback` runs into both.
* The search for a tree deletes edges of the live topology, full ones that active rules hold included. What a rule
  holds on a path or a tree can be given back afterwards exactly if none of its edges is gone (`HeldAfterSearch`;
  `SearchTakesActive`).
* The path and tree searches look at VLANs in use on switches only, the reservations at every node: they agree
  exactly if no other node of the path or tree uses the VLAN (`SearchAgrees`, `TreeSearchAgrees`;
  `SearchOverlooks`, in a state that the policies never bring about).
* Two active tunnels interfere exactly if they share an endpoint on a port with no known neighbour, for which
  nothing is reserved (`InterfereIff`; `RivalsShare`); a tunnel delivers exactly if it is not one port of one switch
  talking to itself (`TunnelDelivers`; `OnePortFails`).
* The limiter of a Corsa switch is invisible exactly if no limited tunnel turns around on one port and no two
  share the VLAN used inside the limiter (`RefinesIff`; `TurningShows`, `SharingShows`). Of active tunnels only
  those within one switch can do either (`InvisibleIff`).
* A multipoint LAN reserves the port of the first endpoint on each switch only (`EndpointReservedIff`;
  `SecondUnreserved`), and a flooded frame reaches every other endpoint exactly if none of them shares its port
  (`EveryOtherIff`; `NeighborMisses`). An active LAN and an active tunnel interfere exactly if the tunnel ends at
  an endpoint for which the LAN has nothing reserved, and two LANs exactly if they share an endpoint for which one
  of them has nothing reserved (`TunnelInterferesIff`, `LansInterfereIff`; `ClashShows`).
* An edge port's flow has the priority of the default of its table, which matches everything: the port's frames are
  shown to the controller exactly if the switch happens to pick the port's flow (`ShownIff`; `OrderDecides`).
* Printing available VLANs and parsing the text is the identity exactly if some VLAN is available
  (`RoundTripIff`).

## Model

| member | source | states |
|---|---|---|
| Graphs.TreeEdgeCount | lib/SteinerTree.py:149 | a tree has one edge less than nodes, which is when Prim's loop stops |
| Graphs.TreeRemoveLeaf | lib/SteinerTree.py:119-121 | cutting off a node of degree at most one leaves a tree |
| Graphs.Graph.AddEdge | lib/SteinerTree.py:65 | adding an edge adds its ends, and nothing else changes |
| Graphs.Graph.RemoveNode | lib/SteinerTree.py:121 | removing a node removes exactly its edges |
| Graphs.Graph.HasPath | lib/SteinerTree.py:64 | the search answers yes exactly if the edges connect the two nodes |
| MinimumTree.GreedyStep | lib/SteinerTree.py:61-65 | adding the shortest edge between two parts keeps the partial tree completable to a minimum one |
| MinimumTree.PairsWithinTwice | lib/SteinerTree.py:43-65 | some spanning set of terminal pairs costs at most twice any subgraph that joins the terminals |
| MinimumTree.GreedyWithinTwice | lib/SteinerTree.py:60-65 | so the tree Kruskal builds on distances costs at most twice any such subgraph |
| Prim.PushEdges | lib/SteinerTree.py:155-163 | queues every edge of the node but the one it was reached by, and loses none |
| Prim.PopEdge | lib/SteinerTree.py:150-167 | one pop, whichever edge it is: every edge leaving the tree stays queued, and the tree grows or the queue shrinks |
| Prim.MakePrimMst | lib/SteinerTree.py:135-168 | for any pop order, a spanning tree made of the graph's edges |
| Prim.Trim | lib/SteinerTree.py:113-122 | trims the branch behind a node: what remains is a tree with all terminals, and visited nodes are terminals or have two neighbours |
| Prim.TrimTree | lib/SteinerTree.py:99-110 | a tree with every terminal in which every leaf is a terminal, inside the tree given |
| SteinerTree.LoadPaths | lib/SteinerTree.py:43-57 | records and queues a shortest path for every pair, and fails exactly if the terminals are not connected |
| SteinerTree.JoinByDistance | lib/SteinerTree.py:60-71 | Kruskal: joins exactly the terminals by a set of pairs that some minimum spanning tree contains |
| SteinerTree.AddPath | lib/SteinerTree.py:83-87 | adds exactly the edges and nodes of the path |
| SteinerTree.UnitePaths | lib/SteinerTree.py:73-87 | the union of the chosen paths, no heavier than their distances together |
| SteinerTree.MakeSteinerTree | lib/SteinerTree.py:23-92 | a tree of the graph with every terminal and only terminal leaves, at most twice as heavy as any subgraph joining them; raises exactly for unknown or unconnected terminals |
| SteinerTree.BestOf | lib/SteinerTree.py:73-92 | union, Prim and trimming never add weight, so the bound survives them |
| PathResources.SumAppend | sdxctlr/RuleManager.py:545-555 | what two lists of resources take adds up, meter by meter |
| PathResources.TimesDistinct | sdxctlr/TopologyManager.py:324-340 | an edge listed once is charged once, an edge not listed not at all |
| PathResources.TakesExactly | sdxctlr/TopologyManager.py:406-458 | a bandwidth resource takes exactly its bandwidth from each edge it names, a VLAN resource its VLAN once from each edge and, on a path or tree, each node it names; and nothing else |
| TopologyManagers.TopologyManager.ReserveBw | sdxctlr/TopologyManager.py:324-340 | succeeds exactly if every listed edge has room, then every meter moves by what was asked; otherwise nothing changes |
| TopologyManagers.TopologyManager.UnreserveBw | sdxctlr/TopologyManager.py:342-356 | succeeds exactly if every listed edge holds that much, then every meter moves back; otherwise nothing changes |
| TopologyManagers.TopologyManager.ReserveVlan | sdxctlr/TopologyManager.py:358-382 | succeeds exactly if the VLAN is free on every listed node and edge, then it is listed once more in each place; otherwise nothing changes |
| TopologyManagers.TopologyManager.UnreserveVlan | sdxctlr/TopologyManager.py:384-404 | succeeds exactly if the VLAN is listed often enough everywhere; breaks off halfway only if a place is named twice |
| TopologyManagers.TopologyManager.ReserveResource | sdxctlr/TopologyManager.py:406-431 | succeeds exactly if the resource fits; then every edge it names carries exactly the named bandwidth more, or the named VLAN once more, and nothing else changes |
| TopologyManagers.TopologyManager.UnreserveResource | sdxctlr/TopologyManager.py:433-458 | succeeds exactly if the resource is held; then every edge it names carries exactly that much less, and nothing else changes |
| TopologyManagers.ReserveKeepsTidy | sdxctlr/TopologyManager.py:324-382 | a fitting reservation never takes an edge over its weight nor a VLAN twice in one place |
| TopologyManagers.UnreserveKeepsTidy | sdxctlr/TopologyManager.py:342-404 | giving back what is held never takes a counter below zero |
| TopologyManagers.TopologyManager.GetSwitchPortNeighbor | sdxctlr/TopologyManager.py:702-712 | the first neighbour listed behind the port, or none |
| TopologyManagers.TopologyManager.FindVlanOnPath | sdxctlr/TopologyManager.py:487-524 | the least VLAN in 1..4088 that no switch on the path uses, no edge of it uses and every edge of it offers; none exactly if there is none |
| TopologyManagers.TopologyManager.FindVlanOnTree | sdxctlr/TopologyManager.py:602-635 | the least VLAN in 1..4088 that is clear on the tree, none exactly if there is none |
| TopologyManagers.TopologyManager.FindValidPath | sdxctlr/TopologyManager.py:526-574 | the first candidate with a clear VLAN and enough bandwidth, none exactly if no candidate has both |
| TopologyManagers.ConsideredIs | sdxctlr/TopologyManager.py:526-574 | without its endpoints, a path counts without its first and last node |
| TopologyManagers.SearchAgrees | sdxctlr/TopologyManager.py:464-524 | on a simple path the search found, the VLAN reservation succeeds exactly if no other node than a switch uses the VLAN; the bandwidth reservation succeeds |
| TopologyManagers.SearchOverlooks | sdxctlr/TopologyManager.py:487-524 | a path to a host that lists the VLAN already: the search accepts it and the reservation refuses it |
| TopologyManagers.BandwidthStillFits | sdxctlr/TopologyManager.py:475-479 | VLAN reservations in between do not spoil the bandwidth reservation |
| TopologyManagers.TopologyManager.DropInsufficient | sdxctlr/TopologyManager.py:669-680 | deletes exactly one edge of the tree on which so much more could not be reserved, and its cables; or none, exactly if it could be on all |
| TopologyManagers.TopologyManager.FindValidSteinerTree | sdxctlr/TopologyManager.py:637-696 | finds a tree exactly if edges on each of which so much more could be reserved join the nodes, and it is within twice the best of those; every edge it deletes could not carry that much more, and its cables go with it; if it finds none, the edges left do not join the nodes; and the edge-count limit never cuts the search short |
| TopologyManagers.SufficientFits | sdxctlr/TopologyManager.py:673-676 | an edge passes the search's test exactly if the bandwidth could be reserved on it |
| TopologyManagers.StillApart | sdxctlr/TopologyManager.py:648-667 | nodes apart after deleting insufficient edges were apart over the sufficient ones |
| TopologyManagers.GrownWithinTwice | sdxctlr/TopologyManager.py:655-696 | the bound holds against every subgraph of sufficient edges of the topology before the search |
| TopologyManagers.UnplugMore | sdxctlr/TopologyManager.py:679 | deleting edges one after the other takes away the same cables as deleting them together |
| TopologyManagers.HeldAfterSearch | sdxctlr/TopologyManager.py:669-680 | what an active rule holds on a path or a tree can be given back after a search exactly if the search deleted none of its edges |
| TopologyManagers.PortAfterSearch | sdxctlr/TopologyManager.py:702-756 | what it holds on a port always can, but behind a deleted edge nothing is given back any more |
| TopologyManagers.SearchTakesActive | sdxctlr/TopologyManager.py:648-680 | a search for a tree with more bandwidth than a full edge has left deletes the edge from under the rule that fills it |
| RuleManagers.QueryKeeps | sdxctlr/RuleManager.py:585-587 | the query lists exactly the inactive rules, by start time |
| RuleManagers.PromotedAll | sdxctlr/RuleManager.py:589-608 | activating the rules taken from the front of the list activates exactly those that are due |
| RuleManagers.DueTotal | sdxctlr/RuleManager.py:585-608 | what the callback asks for in order of start time is in all what the due rules need, each once |
| RuleManagers.FitsIff | sdxctlr/TopologyManager.py:324-382 | a resource is reserved exactly if everything it names exists and it would overdraw no counter |
| RuleManagers.RoomAfter | sdxctlr/RuleManager.py:545-549 | there is room for two lists exactly if there is room for one and, with that taken, for the other |
| RuleManagers.ConservedLeak | sdxctlr/RuleManager.py:545-549 | counters that equalled the sums over the active rules still do after a leak exactly if what leaked takes nothing |
| RuleManagers.ConservedOwe | sdxctlr/RuleManager.py:603-608 | and after a rule was activated without its last resources exactly if those take nothing |
| RuleManagers.ExclusiveVlans | sdxctlr/RuleManager.py:535-549 | two resources of active rules never take the same VLAN in the same place |
| RuleManagers.RuleManager.ReserveResources | sdxctlr/RuleManager.py:545-549 | succeeds exactly if the books had room for the whole list; otherwise it takes the longest part from the front for which there was room, and exactly that |
| RuleManagers.RuleManager.UnreserveResources | sdxctlr/RuleManager.py:551-555 | gives the resources back in order; succeeds exactly if the books account for all of them, and otherwise gives back what comes before the first that is not held |
| RuleManagers.RuleManager.RestartInstallTimer | sdxctlr/RuleManager.py:680-702 | the timer is set to the least start time of the inactive rules, or off if there are none |
| RuleManagers.RuleManager.AddRule | sdxctlr/RuleManager.py:446-497 | the rule is recorded as expired exactly if its stop time has come, else as active exactly if it has no start time or that has come, else as waiting; if active its resources are booked, and it fails exactly if there was no room for all of them; right counters stay right exactly if it is not to be active, fits, or loses nothing; nodes, edges and weights stay what they were |
| RuleManagers.RuleManager.Book | sdxctlr/RuleManager.py:535-549 | the reservation of a new row: either the books balance with the row, or without it and with a leaked part |
| RuleManagers.RuleManager.RemoveRule | sdxctlr/RuleManager.py:499-533 | an authorized removal deletes the rule and gives its resources back, or raises exactly if the rule is active and not all its resources are on the counters, which cannot be while nothing is owed |
| RuleManagers.RuleManager.GiveBack | sdxctlr/RuleManager.py:566-579 | succeeds exactly if the books account for what the rule holds; then the books of the other rules balance |
| RuleManagers.RuleManager.RuleInstallTimerCb | sdxctlr/RuleManager.py:581-612 | raises exactly if there was no room for all that the due rules need, in order of start time; otherwise a waiting rule is active afterwards exactly if its time has come, and the timer is set for the rest; if it raises, a timer that was right is right still exactly if the next waiting rule starts when the first one had to; right counters stay right exactly if nothing that takes something is missing |
| RuleManagers.ScheduledAfter | sdxctlr/RuleManager.py:594-612 | once the first waiting rules are active, an untouched timer is right exactly if the next one starts when the first one had to |
| RuleManagers.SurvivesIff | sdxctlr/RuleManager.py:594-612 | where the callback will stop is settled beforehand, so that condition is one on the state before the call |
| RuleManagers.RuleManager.ActivateDue | sdxctlr/RuleManager.py:589-608 | the loop over the waiting rules, up to the first resource for which there is no room |
| RuleManagers.RuleManager.ActivateRow | sdxctlr/RuleManager.py:603-608 | activates one rule and books the longest part of its resources that fits; the rest is owed to it |
| RuleManagers.RuleManager.Run | sdxctlr/RuleManager.py:446-612 | over every sequence of adds, removals and timer callbacks each operation does to the table what it should, and no counter leaves its bounds; if no callback raised, the timer is right and no removal raises; if no add failed either, the counters equal the sums over the active rules |
| FailedRuns.FailedAddLeaks | sdxctlr/RuleManager.py:535-549 | adding a tunnel whose end cable is too thin fails at the fifth of its six resources, and with no rule in the table its VLANs still count as in use |
| FailedRuns.FailedCallback | sdxctlr/RuleManager.py:603-612 | the same tunnel, to start later: the callback raises, the tunnel counts as active, the timer stays at a time for which nothing waits, and removing the tunnel raises too |
| Bandwidths.TunnelCharges | shared/L2TunnelPolicy.py:168-185 | a tunnel's resources take exactly its bandwidth from each edge of its path and from the edge behind each of its ports, and nothing from any other edge |
| Bandwidths.LanTakesOnce | shared/L2MultipointPolicy.py:136-176 | a LAN's resources take exactly its bandwidth from each edge of its tree and from the edge behind the first endpoint on each switch, and nothing from any other edge |
| Bandwidths.NoOverbooking | sdxctlr/RuleManager.py:535-549 | what all active tunnels and LANs ask for on an edge never adds up to more than its weight, and is what its counter shows once nothing has leaked |
| OpenFlow.BestSays | localctlr/RyuTranslateInterface.py:597-618 | if all matching flows of some priority and above say the same, the table says that (OpenFlow 1.3.2, section 5.3) |
| OpenFlow.PortAndNeighbor | sdxctlr/TopologyManager.py:702-712 | the port towards a neighbour leads to that neighbour |
| RyuTranslate.TranslateLcAction | localctlr/RyuTranslateInterface.py:1230-1300 | groups frame actions into apply-actions instructions and flushes them before every other instruction |
| RyuTranslate.InstructionsMean | localctlr/RyuTranslateInterface.py:1230-1300 | whatever the grouping, the switch applies exactly the frame actions, in order, and takes the first jump |
| RyuTranslate.ControlsKept | localctlr/RyuTranslateInterface.py:1230-1300 | the jumps, drops and metadata come out as they were asked for, in order |
| RyuTranslate.NeverIdle | localctlr/RyuTranslateInterface.py:1230-1300 | no apply-actions instruction comes out empty |
| RyuTranslate.TranslateMatchAction | localctlr/RyuTranslateInterface.py:597-618 | one flow per match-action rule |
| RyuTranslate.TranslateVlanRule | localctlr/RyuTranslateInterface.py:620-718 | the one or two plain flows, or the two or four Corsa flows |
| RyuTranslate.TranslateFloodRule | localctlr/RyuTranslateInterface.py:810-835 | per port, a flow to every other port |
| RyuTranslate.TranslateEndpointRule | localctlr/RyuTranslateInterface.py:837-924 | per endpoint an ingress and a learning flow, then per port a flooding and a broadcast flow to the other tree ports and endpoints |
| RyuTranslate.TranslateFloodTreeRule | localctlr/RyuTranslateInterface.py:1135-1163 | per port, a broadcast flow to every other port |
| RyuTranslate.FloodTreeFlowsAre | localctlr/RyuTranslateInterface.py:1148-1163 | those flows one by one, in the order of the ports |
| RyuTranslate.DefaultsDrop | localctlr/RyuTranslateInterface.py:538-572 | a frame that only the starting rules match is dropped |
| CorsaLimiter.AtSideProcess | localctlr/RyuTranslateInterface.py:636-718 | a frame at a side of a rule goes to the other side, or to the limiter on the output VLAN |
| CorsaLimiter.LimitedThrough | localctlr/RyuTranslateInterface.py:664-718 | through the limiter once, a frame leaves on the far side of a rule with its VLAN |
| CorsaLimiter.RefinesIff | localctlr/RyuTranslateInterface.py:636-718 | whatever else the switch carries, as long as it leaves the rules' frames to them: for every frame from outside, switch and limiter send what the plain flows send, exactly if no limited tunnel turns around and none share a limiter VLAN |
| CorsaLimiter.SharingShows | localctlr/RyuTranslateInterface.py:664-718 | two limited tunnels within a switch with the same output VLAN: one of two frames leaves at the wrong port |
| CorsaLimiter.TurningShows | localctlr/RyuTranslateInterface.py:664-718 | a limited tunnel between two VLANs of one port: its frame comes back where a plain switch would drop it |
| CorsaDelivery.OrdersApart | shared/L2TunnelPolicy.py:197-287 | the rules that tunnels put on one switch listen in different places |
| CorsaDelivery.InvisibleIff | localctlr/RyuTranslateInterface.py:636-718 | on a switch with active tunnels the limiter is invisible exactly if no limited tunnel within the switch turns around or shares its VLAN; tunnels that go on to other switches never do |
| CorsaDelivery.PlainTable | localctlr/RyuTranslateInterface.py:636-662 | without limiters a switch's orders make exactly the tunnels' flows |
| CorsaDelivery.LimitedTunnelsDeliver | localctlr/RyuTranslateInterface.py:636-718 | where that condition holds, active tunnels deliver in both directions through all limiters on their way, exactly as they would without |
| L2Tunnels.L2TunnelPolicy.BreakdownRule | shared/L2TunnelPolicy.py:141-290 | fails exactly if no shortest path is usable, or if the first usable one leads through a node that is not a switch; otherwise that path, a VLAN clear on it, and the resources, endpoints and rules for them |
| L2Tunnels.TunnelFormed | shared/L2TunnelPolicy.py:168-185 | a tunnel's resources never name an edge or a node twice |
| L2Tunnels.EndsReserved | shared/L2TunnelPolicy.py:168-196 | each listed endpoint of a tunnel is the edge and VLAN that its port reservation takes |
| L2Tunnels.L2TunnelPolicy.MakeRules | shared/L2TunnelPolicy.py:197-290 | one rule for one switch, else two end rules and one for each switch between, on the intermediate VLAN |
| L2Tunnels.FlowsAreSlots | shared/L2TunnelPolicy.py:228-287 | the flows on a switch are exactly those of the places where the tunnel listens there |
| TunnelIsolation.ListeningReserved | shared/L2TunnelPolicy.py:168-176 | wherever a tunnel listens on a port that leads somewhere, it has reserved the VLAN it listens to on that edge |
| TunnelIsolation.TransitKeysDiffer | shared/L2TunnelPolicy.py:228-287 | along a simple path a tunnel listens nowhere twice |
| TunnelIsolation.InterfereIff | sdxctlr/TopologyManager.py:358-382 | two active tunnels match a common frame exactly if they share an endpoint on a port that leads nowhere |
| TunnelIsolation.RivalsShare | shared/L2TunnelPolicy.py:168-176 | two active tunnels with books in order that do share one |
| TunnelIsolation.OwnKeysApart | shared/L2TunnelPolicy.py:228-287 | nor do two rules of one active tunnel, except for two equal endpoints on such a port |
| TunnelDelivery.ModestHosts | localctlr/RyuTranslateInterface.py:597-618 | flows of other policies that are less important than a tunnel's never get between tunnels and their frames |
| TunnelDelivery.SlotForwards | localctlr/RyuTranslateInterface.py:642-662 | whatever else the switch carries below tunnel priority, a frame heard at one side of a rule leaves at the other, retagged, unless that is the port it came from |
| TunnelDelivery.HandsOn | shared/L2TunnelPolicy.py:262-287 | each switch of the way hands the frame to the next on the intermediate VLAN |
| TunnelDelivery.Travels | shared/L2TunnelPolicy.py:197-290 | in either direction the frame visits exactly the switches of the path in order and leaves by the other end's port on its VLAN |
| TunnelDelivery.TunnelDelivers | shared/L2TunnelPolicy.py:197-290 | a tunnel among tunnels that are apart delivers in both directions, exactly if it is not one port of one switch |
| TunnelDelivery.OnePortFails | shared/L2TunnelPolicy.py:197-220 | a tunnel between two VLANs of one port, alone on its switch, delivers nothing |
| TunnelDelivery.ActiveApartIff | sdxctlr/TopologyManager.py:358-382 | active tunnels are apart exactly if no two ends are the same endpoint on a port that leads nowhere |
| TunnelDelivery.ActiveTunnelsDeliver | sdxctlr/RuleManager.py:535-549 | however many tunnels are active together, on switches that carry anything else below tunnel priority, as long as no two share an end on a port that leads nowhere: each delivers in both directions, exactly if it is not one port of one switch |
| L2Multipoints.L2MultipointPolicy.EndpointSwitches | shared/L2MultipointPolicy.py:121-125 | the switches with endpoints, each once, in order of first mention |
| L2Multipoints.L2MultipointPolicy.AddEndpointRules | shared/L2MultipointPolicy.py:158-211 | for each such switch one rule with all its endpoints and its tree ports, and two resources for its first endpoint |
| L2Multipoints.ExternalsAre | shared/L2MultipointPolicy.py:158-211 | the external endpoints are exactly what is behind the ports of the first endpoints, with their VLANs |
| L2Multipoints.RulesCarry | shared/L2MultipointPolicy.py:158-237 | every rule of the breakdown is on the intermediate VLAN, and has the LAN's bandwidth exactly where there are endpoints |
| L2Multipoints.NotEndpointsAre | shared/L2MultipointPolicy.py:178-211 | the ports a switch floods are its tree ports without those of its endpoints |
| L2Multipoints.L2MultipointPolicy.AddFloodRules | shared/L2MultipointPolicy.py:213-237 | for every other switch of the tree a rule with all its tree ports |
| L2Multipoints.L2MultipointPolicy.PlanTree | shared/L2MultipointPolicy.py:127-131 | the tree and the least clear VLAN on it; no tree exactly if sufficient edges do not join the switches |
| L2Multipoints.L2MultipointPolicy.BreakdownRule | shared/L2MultipointPolicy.py:114-240 | tree, VLAN, resources, external endpoints and one rule per switch of the tree, or the reason why not, on the topology as the search leaves it |
| L2Multipoints.TreeWired | shared/L2MultipointPolicy.py:190-201 | edges that the search left are still cabled, so every tree edge has its ports |
| L2Multipoints.EndpointReservedIff | shared/L2MultipointPolicy.py:158-176 | an endpoint's port and VLAN are reserved exactly if the first endpoint listed on its switch has the same |
| L2Multipoints.SecondUnreserved | shared/L2MultipointPolicy.py:158-176 | the second endpoint of a switch, on another port, is not |
| L2Multipoints.TreeSearchAgrees | sdxctlr/TopologyManager.py:602-635 | on a tree the searches found, the VLAN reservation succeeds exactly if no other node than a switch uses the VLAN; the bandwidth reservation succeeds |
| L2Multipoints.MultipointFormed | shared/L2MultipointPolicy.py:136-176 | a LAN's resources never name an edge or a node twice |
| MultipointFlows.ActionsEmitted | localctlr/RyuTranslateInterface.py:896-905 | a flooded frame goes to the other tree ports unchanged and to the endpoints on other ports on their VLANs |
| MultipointFlows.FromTree | localctlr/RyuTranslateInterface.py:821-835 | unless another flow as important hears it, a frame from a tree port passes the first tables untouched and is flooded |
| MultipointFlows.FromEndpoint | localctlr/RyuTranslateInterface.py:864-924 | likewise a frame from an endpoint is put on the intermediate VLAN, shown to the controller once, and flooded |
| TreeSides.SideSplits | shared/L2MultipointPolicy.py:190-201 | behind a tree edge lie the switch at its end and what lies behind that switch's other neighbours, each node once |
| Flooding.RuleShape | shared/L2MultipointPolicy.py:183-201 | with endpoints on edge ports, a switch's rule floods all its tree ports and serves all its endpoints |
| Flooding.RulesCoverTree | shared/L2MultipointPolicy.py:158-237 | the policy's breakdown gives every switch of the tree its rule, and no switch a second one |
| Flooding.SideReached | shared/L2MultipointPolicy.py:160-237 | across an edge a frame reaches exactly the endpoints behind it and crosses every edge behind it exactly once |
| Flooding.FloodReaches | shared/L2MultipointPolicy.py:160-237 | from an endpoint it reaches every endpoint off its port exactly once on that endpoint's VLAN, crosses every tree edge exactly once, and stops |
| Flooding.LanFloods | localctlr/RyuTranslateInterface.py:810-924 | the flows installed by the local controllers do that, wherever no other flow decides about the LAN's frames |
| EdgePorts.EdgePortPolicy.BreakdownRule | shared/EdgePortPolicy.py:58-85 | one rule for each port of the switch whose neighbour is not a switch |
| EdgePorts.SwitchPortsStay | shared/EdgePortPolicy.py:75-82 | a port towards another switch gets none |
| EdgePorts.CommonYields | localctlr/RyuTranslateInterface.py:772-808 | on a switch with its starting rules, edge-port flows, learned destinations and flood trees, the LAN's rule prevails |
| EdgePorts.DeployedLanFloods | sdxctlr/SDXController.py:196-206 | so the LAN floods on switches that carry all of these |
| CommonFlows.ShownIff | localctlr/RyuTranslateInterface.py:791-808 | with only the common flows, an edge port's frame is shown to the controller exactly if the switch picks the port's flow among equals, and goes on to the last table in either case |
| CommonFlows.OrderDecides | localctlr/RyuTranslateInterface.py:536-549 | listed after the starting rules the port's flow is never picked, before them it is |
| CommonFlows.LearnedForwards | localctlr/RyuTranslateInterface.py:772-789 | a frame to a learned address leaves by the port learned for it, and not by the port it came from |
| CommonFlows.BroadcastFloods | localctlr/RyuTranslateInterface.py:1135-1163 | a broadcast on a port of the flood tree leaves by all its other ports |
| Flooding.NeverBack | localctlr/RyuTranslateInterface.py:896-905 | nothing comes back out of the port the frame came in on |
| Flooding.EveryOtherIff | localctlr/RyuTranslateInterface.py:896-905 | every other endpoint gets exactly one copy exactly if none of them shares the port |
| Flooding.NeighborMisses | localctlr/RyuTranslateInterface.py:896-905 | of two endpoints on one port neither hears the other |
| BuiltLans.UnpluggedOk | sdxctlr/TopologyManager.py:679 | deleting edges leaves the wiring in order |
| BuiltLans.BuiltIsLan | shared/L2MultipointPolicy.py:114-240 | what the breakdown builds, with endpoints at the edge of the network, is a LAN in the sense of the flooding theorem |
| BuiltLans.LayLan | shared/L2MultipointPolicy.py:114-240 | run on any topology, the breakdown leaves such a LAN, and the translations of its rules make it one in force with the policy's resources |
| Coexistence.HeardReserved | sdxctlr/TopologyManager.py:358-382 | wherever the first table hears a LAN's frame, the LAN has reserved its VLAN on the edge behind the port, except at the endpoints for which it has nothing reserved |
| Coexistence.TunnelInterferesIff | sdxctlr/TopologyManager.py:358-382 | an active LAN and an active tunnel hear a common frame first exactly if the tunnel ends at an endpoint for which the LAN has nothing reserved |
| Coexistence.LansInterfereIff | sdxctlr/TopologyManager.py:358-382 | two active LANs do exactly if they share an endpoint for which one of them has nothing reserved |
| Coexistence.OwnInside | sdxctlr/TopologyManager.py:358-382 | two active LANs through one switch have different intermediate VLANs, because both have reserved theirs on the switch |
| Coexistence.LanFlowApart | localctlr/RyuTranslateInterface.py:810-924 | if they share no such endpoint, no flow of one decides about the other's frames |
| Coexistence.SideBySide | sdxctlr/RuleManager.py:535-549 | all active LANs and tunnels together, over all the common flows, as long as none of them interfere in these ways: every LAN floods and every tunnel delivers as if it were alone |
| LanClash.ClashShows | shared/L2MultipointPolicy.py:158-176 | with the books in order, a tunnel takes the second endpoint of a LAN on one switch, and the LAN's frames from there leave through the tunnel |
| LearnedDestinations.LearnedDestinationPolicy.BreakdownRule | shared/LearnedDestinationPolicy.py:78-139 | one rule per switch, to the next stop on some shortest path or out of the destination port; fails exactly if some switch cannot reach the destination |
| LearnedDestinations.FollowsShortest | shared/LearnedDestinationPolicy.py:125-136 | following next hops chosen independently reaches the destination along a shortest path |
| LearnedDestinations.LearnedRoute | shared/LearnedDestinationPolicy.py:108-136 | so do the installed rules, from every switch |
| LearnedDestinations.SwitchChange | shared/L2MultipointPolicy.py:291-360 | one rule per switch of the tree on the intermediate VLAN, at the destination on the VLAN of the first endpoint there; fails exactly if the destination is off the tree or has no endpoint |
| LearnedDestinations.TreeRoute | shared/L2MultipointPolicy.py:342-357 | along the tree too the rules lead from every switch to the destination without a detour |
| LearnedDestinations.TreeCarries | shared/L2MultipointPolicy.py:291-360 | a frame on the LAN's VLAN is carried on that VLAN to the destination switch and leaves by the learned port on the VLAN of the first endpoint there |
| SdxProtocol.StepNumbers | shared/SDXControllerConnectionManagerConnection.py:514-666 | every step keeps numbers consecutive and acknowledgements below them, so neither is ever seen going backwards |
| SdxProtocol.LcMoves | shared/SDXControllerConnectionManagerConnection.py:668-761 | every handshake move of the local controller keeps the invariant and is one of a bounded number |
| SdxProtocol.SdxMoves | shared/SDXControllerConnectionManagerConnection.py:763-860 | every handshake move of the SDX controller likewise |
| SdxProtocol.TakeTracked | shared/SDXControllerConnectionManagerConnection.py:862-876 | a heartbeat response always finds the outstanding flag up |
| SdxProtocol.LcTakesExactly | shared/SDXControllerConnectionManagerConnection.py:688-750 | the LC raises exactly on a message other than the one it waits for |
| SdxProtocol.SdxTakesExactly | shared/SDXControllerConnectionManagerConnection.py:768-842 | so does the SDX controller, which also raises when told that all rules have arrived while some have not |
| SdxProtocol.MainTakesExactly | shared/SDXControllerConnectionManagerConnection.py:862-870 | in the main phase a side raises exactly on a response it does not expect and on messages of the handshake |
| SdxProtocol.WarnsExactly | shared/SDXControllerConnectionManagerConnection.py:562-569 | a side complains exactly if a packet acknowledges what was not sent yet or numbers backwards |
| SdxProtocol.HeartbeatTick | shared/SDXControllerConnectionManagerConnection.py:879-933 | the timer closes a side exactly if its last heartbeat has not come back, and otherwise raises the flag and sends one request |
| SdxProtocol.HeartbeatReturns | shared/SDXControllerConnectionManagerConnection.py:862-933 | from every reachable state of the main phase, as long as nobody closes, further moves can bring an outstanding heartbeat back |
| SdxProtocol.StepKeeps | shared/SDXControllerConnectionManagerConnection.py:668-933 | every step, heartbeats and other traffic included, keeps the whole invariant |
| SdxProtocol.RunSafe | shared/SDXControllerConnectionManagerConnection.py:668-933 | in every run no side raises, counts agree, completion comes only with exactly the rules the SDX controller has for the name it was told, in order, and a side closes only if a heartbeat of its own is still on its way |
| SdxProtocol.NeverStuck | shared/SDXControllerConnectionManagerConnection.py:668-860 | until both sides are in the main phase some handshake move is possible |
| SdxProtocol.FairRunsConnect | shared/SDXControllerConnectionManagerConnection.py:668-860 | every fair run without failure takes both sides to the main phase |
| VlanRanges.ParseAvailableVlans | sdxctlr/TopologyManager.py:280-322 | numbers and ranges between commas, with the source's errors; a piece with two dashes counts for nothing |
| VlanRanges.PieceVerdict | sdxctlr/TopologyManager.py:284-320 | a piece is one VLAN, or a range the right way round; with more than one dash it counts for nothing |
| VlanRanges.PieceErrors | sdxctlr/TopologyManager.py:284-318 | any other piece is refused, as no number, as too big for a plain integer, or as beyond 4095, in that order |
| VlanRanges.PiecesVerdict | sdxctlr/TopologyManager.py:280-320 | a text is refused exactly if a piece is, with the error of the first such piece |
| VlanRanges.OnlyVlans | sdxctlr/TopologyManager.py:280-320 | whatever is read lies between 0 and 4095 and comes from some piece |
| VlanRanges.BlanksIgnored | sdxctlr/TopologyManager.py:285-294 | blanks around a number do not matter |
| VlanRanges.PrintRanges | sdxctlr/SenseAPI.py:472-499 | the text of the longest runs of the list, ascending and apart |
| VlanRanges.VlansAvailable | sdxctlr/SenseAPI.py:454-499 | parsing the text gives exactly the available VLANs that are not in use, in order; if there are none the text is empty and the parser refuses it |
| VlanRanges.RoundTripIff | sdxctlr/TopologyManager.py:280-322 | reading a printed text gives the same VLANs exactly if there were any |
| VlanRanges.ReadsBack | sdxctlr/TopologyManager.py:280-322 | the printed text of any list within 0..4095 reads back as that list, the empty one as an error |
| VlanRanges.OneText | sdxctlr/SenseAPI.py:472-499 | maximal ranges are determined by the VLANs, so equal lists print alike |
| Framing.Connection.Send | lib/Connection.py:143-151 | sends the length and the payload, or fails and sends nothing exactly if the connection is closed or the length does not fit |
| Framing.Connection.RecvSize | lib/Connection.py:113-120 | reads exactly the four bytes of the length, in whatever pieces; if fewer arrive it raises or reads for ever, as the stream ends by an error or is closed |
| Framing.BigEndian | lib/Connection.py:119 | the length is read with the most significant byte first |
| Framing.SignBit | lib/Connection.py:119 | and as a signed number |
| Framing.Connection.Recv | lib/Connection.py:109-140 | returns exactly the first payload, or raises if it does not load, and leaves every byte behind it; raises or reads for ever likewise if the payload never arrives in full |
| Framing.Connection.ReceiveThread | lib/Connection.py:184-196 | delivers the payloads one after the other up to the first that cannot be received, and then closes the connection, unless it hangs at the end of a closed stream |
| Framing.RoundTrip | lib/Connection.py:109-151 | what was sent is what a receiver reads, in order, and then whatever follows |
| Framing.OneReading | lib/Connection.py:109-151 | a stream can be read in one way only |
| Framing.Exchange | lib/Connection.py:109-151 | end to end, the receiver gets exactly the payloads sent |
| SenseSanitize.SenseApi.CheckMatches | sdxctlr/SenseAPI.py:364-370 | finds out whether a delta's rules all exist, and takes the hashes it looked at off the list |
| SenseSanitize.SenseApi.RemoveRows | sdxctlr/SenseAPI.py:375-380 | removes the hashes and those of their rules that exist |
| SenseSanitize.SenseApi.SanitizeDb | sdxctlr/SenseAPI.py:327-395 | keeps exactly the deltas whose hashes all have rules, their hashes, and every rule but those of removed hashes |
| SenseSanitize.Sanitized | sdxctlr/SenseAPI.py:327-395 | afterwards deltas, hashes and rules agree; a delta is kept exactly if it had a hash and all its rules existed, with all its hashes and rules; the rules that are gone are those of hashes that are gone; and cleaning up again changes nothing |

## Left out

- The remove timer and the expiry of rules (sdxctlr/RuleManager.py:614-678): the callback hands on a table row where a rule is expected and parses a stop time that may be null, so the text does not settle what expiry does. Runs here have adds, removals and timed installs; nothing is claimed about expired rules.
- RuleManagers.RuleManager.RestartInstallTimer: a rule that is inactive without a start time is not covered by its promise, because the program itself never records one.
- RuleManagers.RuleManager.Run: takes the resources of each rule as given, and does not interleave the tree searches that delete edges; what one search does to what active rules hold is `HeldAfterSearch` and `PortAfterSearch`.
- TunnelDelivery.TunnelDelivers: the switches run the plain flows; what limiters change about that is in `CorsaDelivery.dfy`.
- CorsaDelivery.LimitedTunnelsDeliver: the network has limiters and tunnels; LANs beside limiters are not stated.
- Coexistence.SideBySide: is about one wiring, the one the LANs and tunnels were laid out on; a search that deletes edges later changes neither their rules nor their flows. Switches run the plain flows.
- Flooding.LanFloods: says nothing of frames to a destination the LAN has learned, and nothing where a flow of another policy is as important as the LAN's own.
- LearnedDestinations.LearnedRoute: stays at the level of rules, with next hops read from the wiring; it is about switches, not about the VLAN a learned frame leaves on, and assumes that nodes other than switches hang off a single edge.
- SteinerTree.MakeSteinerTree: takes distinct vertices of interest, which its caller ensures (shared/L2MultipointPolicy.py:121-125), and reads path keys as unordered pairs, so names that contain a colon are not confused.
- Framing.Connection.Recv: what the unpickler makes of a payload is not modelled, only whether it accepts it.
- SenseSanitize.SenseApi.SanitizeDb: delta ids and rule hashes do not repeat (with repeats the list's own remove raises), queries are snapshots, and removing an existing rule succeeds.
- SdxProtocol.RunSafe: the two threads of each side interleave, so the protocol is a relation on states rather than a class; the socket and the threads themselves are not modelled.
- SdxProtocol.StepNumbers: sending a message and counting it (`msg_num += 1`) are one step here; in the program a side's heartbeat thread and its receiving thread share the number without a lock, so two messages can go out with the same number.
- SdxProtocol.FairRunsConnect: messages arrive whole and in order; the ten-try header limit of the byte reader, connection loss and missed heartbeats that close a side end progress but not safety.
- VlanRanges.ParseAvailableVlans: numbers are decimal strings as Python 2 reads them, without long suffixes; the cache of parsed texts is not modelled.
- Flows for the management VLAN, the metadata of Corsa multipoint rules (disabled by a constant at localctlr/RyuTranslateInterface.py:45), OpenFlow message objects, meters and REST calls.
- The CFI bit that Ryu sets in every VLAN match and rewrite is left out on both sides.
- `_translate_L2MultipointLearnedDestinationLCRule` (localctlr/RyuTranslateInterface.py:1105-1133): it calls a field object and cannot be given a meaning.
- The reconciliation in the local controller's rule manager, `FloodTreePolicy`, authentication, users, registries, REST and HTML, RDF generation, pickling, logging and thread creation: plumbing or easy members.
