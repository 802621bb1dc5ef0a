# Outscale load-balancer controller: a verified model

The controller keeps an Outscale cloud in step with Kubernetes services. For each service it creates a load balancer
and its security group, syncs listeners and backend policies, registers instances, and opens the instances' security
groups for the load balancer's group. This project models those reconcilers and proves what they achieve, what they
never do, and what a second pass finds left to do.

## How it is modelled

`CloudApi.Api` is the cloud as an object: security groups with tags and permissions, load balancers with listeners,
backend policies and instances, and a log of the mutating calls. Each method stands for one call of the original's
`oapi_itf.go`. A call may fail at any time. Failed changes of rules, of listeners and of registrations may have been
applied in part; creating, deleting and tagging groups, creating and deleting load balancers, and defining and setting
policies are all or nothing. In a *reliable* cloud calls only fail for a reason, which is how success is stated. Reads
may report rules in any regrouping that permits the same, several kinds of source in one rule included. Iterations over
maps take any order. Other actors are `OthersAct`, which creates and deletes any groups.

A permission (`Atom`) is one protocol, one port range and one source; a rule means a set of them. Lemmas named `...Are`,
`...Iff`, `...Mean` or `...At` say what a definition comes to in terms of the fields of groups, listeners and calls.

| file | original | about |
|---|---|---|
| IpRules | sets_ippermissions.go | rules, their meaning, the rule set and its canonical form |
| Listeners | osc_loadbalancer.go | listener equality and the listener plan |
| Services | utils.go, ccm_cloud.go | the listeners and permissions a service asks for |
| CloudApi | oapi_itf.go | the cloud and its calls |
| Ingress | ccm_cloud.go | the load balancer's own security group |
| LoadBalancers | osc_loadbalancer.go | listeners, backend policies and instances of one load balancer |
| Tagging, GroupCreation | tags.go, ccm_cloud.go | cluster tags; finding or creating a group under interference |
| NodeGroups, NodeGroupUpdate | ccm_cloud.go, utils.go | the instances' security groups |
| Deletion | ccm_cloud.go | deleting a load balancer and its groups |
| Reconcile, Runs | ccm_cloud.go | the whole sequence, and runs of many services |
| Subnets, Strings | ccm_cloud.go, utils.go | the choice of the subnet |
| Backoffs | retry_handler.go | the delay shared by all requests |
| InstanceCache | instances.go | the instance snapshot under concurrent callers |
| ProviderId | instances.go, instances_v2.go | provider ids of nodes |
| Wrappers, Collections, Config | | options and results, listings of sets, configuration |

## What the code does that its comments do not say

Paths are relative to `cloud-controller-manager/osc/`.

- An update whose registration call fails ends without an error and without opening groups (ccm_cloud.go:1870-1873,
  `Runs.UpdateService`).
- A deletion that finds no load balancer succeeds, so groups that an earlier, failed deletion left behind stay
  (ccm_cloud.go:1705-1708 and 1808-1826, `Deletion.DeleteTwice`).
- An instance's only group may lack the cluster tag; it is opened, but a deletion looks at tagged groups only and leaves
  it open (utils.go:225-231, ccm_cloud.go:1580-1585, `Deletion.UntaggedGroupStaysOpen`); `NamedAfterDeletionIff` gives the
  exact condition.
- When the cloud reports a rule of the own group with several kinds of source, or with an empty list of another kind, a
  desired permission in it is asked for again, which the cloud refuses in every run, or is removed with that rule
  (ccm_cloud.go:601-656, `Ingress.MixedReportIsRefused`, `IpRules.MixedReportLosesDesired`); `IpRules.PlanIsRightIff` gives the exact condition.
- A rule that names the load balancer's group in another shape makes the update believe the group is open
  (ccm_cloud.go:1564-1643, `NodeGroupUpdate.OddShapeHidesMissingRule`); `PassInGeneral` gives the exact condition.
- A security group recovered after a crash between creation and tagging never gets the caller's additional tags
  (ccm_cloud.go:844-846, `GroupCreation.CrashLosesAdditionalTags`); `AdoptedGroupCarriesIff` gives the exact condition.
- Without legacy tags two clusters can both adopt one group (tags.go:332-353, `Tagging.ExclusiveIffBothLegacy`).
- The proxy policy is lost when a service port changes while its node port stays, because the sync reads the
  description from before the removal (osc_loadbalancer.go:216-229 and 261-285, `LoadBalancers.MovedServicePortLosesPolicy`);
  `PoliciesRightIffNoClash` gives the exact condition.
- The backoff can pass its maximum when errors arrive after a decay (retry_handler.go:139-168 and 173-178,
  `Backoffs.LateErrorsPassTheMaximum`); `DelayBelowMaxIff` gives the exact condition.

## Model

| member | source | states |
|---|---|---|
| IpRules.MeaningIs | cloud-controller-manager/osc/sets_ippermissions.go:93-137 | a set of rules permits something exactly when some rule has its protocol and ports and lists its source, be that a range, a member or a service |
| IpRules.UngroupPreservesMeaning | cloud-controller-manager/osc/sets_ippermissions.go:93-137 | ungrouping any set of rules keeps the set of permissions it stands for (the union of each rule's sources, on the rule's ports) |
| IpRules.UngroupLeavesOneOfEach | cloud-controller-manager/osc/sets_ippermissions.go:90-137 | every rule of an ungrouped set has at most one range, one member and one service, whatever the input |
| IpRules.UngroupIdempotent | cloud-controller-manager/osc/sets_ippermissions.go:93-137 | ungrouping an ungrouped set changes nothing |
| IpRules.UngroupYieldsPiecesIff | cloud-controller-manager/osc/sets_ippermissions.go:93-137 | the ungrouped form is the set of one-permission rules of the meaning exactly when every rule has one non-empty kind of source and the other lists absent |
| IpRules.UngroupIsCanonical | cloud-controller-manager/osc/sets_ippermissions.go:90-137 | for rules of one source kind each, two sets have the same ungrouped form exactly when they permit the same |
| IpRules.DifferenceOfUngroupedIsDifferenceOfMeanings | cloud-controller-manager/osc/sets_ippermissions.go:93-171 | for such rules the difference of the ungrouped sets by key is, as one-permission rules, the difference of what they permit |
| IpRules.MixedRuleDefeatsUngroup | cloud-controller-manager/osc/sets_ippermissions.go:93-137 | counterexample for mixed rules: equal permissions, and ungrouped forms with nothing in common |
| IpRules.PlanThatFits | cloud-controller-manager/osc/ccm_cloud.go:601-619 | whatever is reported, if no reported rule of mixed kind permits anything desired, the comparison asks to create exactly what is missing and to delete exactly what is not desired |
| IpRules.PlanIsRightIff | cloud-controller-manager/osc/ccm_cloud.go:601-619 | for desired rules of one kind each and any report: the additions are accepted and lead with the removals to exactly what is desired if and only if the report fits in that sense |
| IpRules.RemovedDesiredIsMixed | cloud-controller-manager/osc/ccm_cloud.go:601-619 | for any report, a desired permission is only ever removed if a reported rule of mixed kind permits it |
| IpRules.MixedReportAsksAgain | cloud-controller-manager/osc/ccm_cloud.go:601-619 | a report that does not fit: one rule permits the desired range and a member, and the comparison asks for the range again |
| IpRules.MixedReportLosesDesired | cloud-controller-manager/osc/ccm_cloud.go:601-619 | another one: the desired range is also reported in a rule of its own; nothing is asked for, and the removal of the mixed rule takes the range away |
| IpRules.IPRulesSet.Insert | cloud-controller-manager/osc/sets_ippermissions.go:140-145 | the set afterwards holds the old rules and the inserted ones, each under its own key |
| IpRules.IPRulesSet.List | cloud-controller-manager/osc/sets_ippermissions.go:148-159 | every rule of the set once, in any order |
| IpRules.IPRulesSet.Ungroup | cloud-controller-manager/osc/sets_ippermissions.go:93-137 | the three nested splitting loops produce a new set equal to the ungrouped form the lemmas speak of |
| IpRules.IPRulesSet.Difference | cloud-controller-manager/osc/sets_ippermissions.go:162-171 | the rules whose keys the other set lacks are the set difference of the rules, since keys are injective |
| Listeners.ListenersEqualIffNormal | cloud-controller-manager/osc/osc_loadbalancer.go:395-436 | two listeners are the same exactly when they have one normal form: texts folded, absent ports read as zero, absent texts only equal to absent ones |
| Listeners.ListenersEqualIsEquivalence | cloud-controller-manager/osc/osc_loadbalancer.go:395-436 | the comparison is reflexive, symmetric and transitive |
| Listeners.SameTextIff | cloud-controller-manager/osc/osc_loadbalancer.go:417-436 | two texts are the same exactly when both are absent, or both present, of one length, and at each place one character or the two cases of one letter |
| Listeners.CasesAre | cloud-controller-manager/osc/utils.go:244-270 | lower case changes the ASCII capitals only, upper case the small letters only, place by place |
| Listeners.ConvergedIff | cloud-controller-manager/osc/osc_loadbalancer.go:395-414 | a one-to-one match means: the load balancer has exactly the desired ports, and on each the desired instance port, and protocols and certificate that are the same texts |
| Listeners.ConvergedHasCertificate | cloud-controller-manager/osc/osc_loadbalancer.go:413-436 | in a match a desired certificate is on its port, character by character up to the case of letters |
| Listeners.SyncElbListeners | cloud-controller-manager/osc/osc_loadbalancer.go:351-393 | the two loops return the desired listeners that no actual one matched first, and the ports of the actual ones that match none; absent entries are skipped |
| Listeners.FoundIffPresent | cloud-controller-manager/osc/osc_loadbalancer.go:358-382 | with distinct ports a desired listener is marked found exactly when the load balancer has its equal on its port |
| Listeners.RemovedPorts | cloud-controller-manager/osc/osc_loadbalancer.go:358-383 | the ports of the removals are exactly those whose listener matches no desired one, so no matched listener is deleted |
| Listeners.PlanConverges | cloud-controller-manager/osc/osc_loadbalancer.go:209-247 | with distinct desired ports, deleting the removals and then creating the additions hits no occupied port and ends in a one-to-one match with the desired listeners |
| Listeners.AdditionsAreTheMissing | cloud-controller-manager/osc/osc_loadbalancer.go:386-390 | the additions are exactly the desired listeners the load balancer lacks, on distinct ports that are free after the deletions |
| Listeners.PlanEmptyIffConverged | cloud-controller-manager/osc/osc_loadbalancer.go:351-393 | the plan is empty exactly when actual and desired listeners match one to one |
| Services.BuildListener | cloud-controller-manager/osc/utils.go:240-273 | the listener keeps both ports; it carries the certificate exactly where the annotations ask for one, then with the front that the backend protocol calls for and that protocol in capitals (TCP for none) behind it; the only error is a backend protocol other than https, http, ssl and tcp with a certificate |
| Services.UsesCertificateIff | cloud-controller-manager/osc/utils.go:251 | without a certificate no port uses one; without a port list every port does; with a list exactly the listed numbers and the ports whose name in lower case is listed |
| Services.BuildListeners | cloud-controller-manager/osc/ccm_cloud.go:1110-1133 | succeeds exactly for a non-empty list of TCP ports that can all get their listener (all can without a certificate, or with a known backend protocol), and then gives one listener for each port with a node port, in order |
| Services.ListenerComesFromPort | cloud-controller-manager/osc/ccm_cloud.go:1119-1133 | the i-th listener is the one built for a port with a node port that exactly i others come before |
| Services.PortGetsListener | cloud-controller-manager/osc/ccm_cloud.go:1119-1133 | and every port with a node port gets its listener |
| Services.DistinctServicePortsGiveDistinctListeners | cloud-controller-manager/osc/ccm_cloud.go:1119-1133 | distinct service ports give listeners on distinct ports, which is what the listener plan relies on |
| Services.BuildPermissions | cloud-controller-manager/osc/ccm_cloud.go:1321-1352 | the rule set holds one rule for each service port and the ICMP rule, all with the source ranges |
| Services.PermissionsMeanDesired | cloud-controller-manager/osc/ccm_cloud.go:1326-1352 | these rules have one source kind each and mean every service port and ICMP 3 to 4 from every source range, as the comparison needs it |
| Services.DesiredAtomsAre | cloud-controller-manager/osc/ccm_cloud.go:1321-1352 | what a service asks for: each of its ports over its own protocol in lower case, and ICMP 3 to 4, from each source range, and nothing else |
| Ingress.FindSecurityGroup | cloud-controller-manager/osc/ccm_cloud.go:547-574 | a group is returned exactly when the cloud has one of that id |
| Ingress.PlanIngress | cloud-controller-manager/osc/ccm_cloud.go:599-619 | the rules to create and to delete are the two differences of the ungrouped desired and reported rules |
| Ingress.ApplyIngress | cloud-controller-manager/osc/ccm_cloud.go:628-658 | creates first, deletes afterwards; every state in between keeps everything old that is not to go and adds only what was asked, rules only go once all additions are there, and an addition that is there already makes the run fail before any deletion |
| Ingress.SetSecurityGroupIngress | cloud-controller-manager/osc/ccm_cloud.go:576-659 | for every report the cloud may make: nothing outside old and asked-for permissions appears, nothing is deleted before all additions are there, and a refused addition loses nothing; success leaves exactly the desired permissions if and only if the report fits; if it fits, after every single call everything both old and desired is there, the answer tells whether anything changed, nothing is called when nothing must change, and a reliable cloud means success; the configured group is never touched |
| Ingress.PlannedRun | cloud-controller-manager/osc/ccm_cloud.go:576-659 | a run of the comparison's differences is a safe and exact one if the report fits, and a successful one is exact only then |
| Ingress.IngressRunMeans | cloud-controller-manager/osc/ccm_cloud.go:576-659 | what a run on a report that fits means at every call: other groups untouched, everything both old and desired there, nothing else than old and desired there, and everything desired there once rules are taken away; at the end the desired permissions if it succeeds |
| Ingress.PlanRunMeans | cloud-controller-manager/osc/ccm_cloud.go:576-659 | what any run means at every call: only rules of this group, only what is desired appears, and a run without a deletion loses nothing |
| Ingress.MixedReportIsRefused | cloud-controller-manager/osc/ccm_cloud.go:625-642 | while a report mixes what is desired with another source, every run fails, deletes nothing and loses nothing |
| Ingress.RunIsAttempt | cloud-controller-manager/osc/ccm_cloud.go:576-659 | every run the contract allows is an attempt of the kind the next row speaks of |
| Ingress.AttemptsAreSafeAndSettle | cloud-controller-manager/osc/ccm_cloud.go:576-659 | over any number of failed and successful attempts on reports that fit, nothing both old and desired is lost and nothing undesired is added; from the first attempt that came to deleting on, failed or not, everything desired is there; from the first success on the permissions are the desired ones and later successes report no change |
| Tagging.ResourceTagging.Init | cloud-controller-manager/osc/tags.go:111-131 | succeeds exactly when one cluster id is known and the two sources do not disagree; legacy tags are used once a legacy id was seen |
| Tagging.HasClusterTag | cloud-controller-manager/osc/tags.go:174-188 | true without a cluster id, and otherwise exactly when some tag has the key OscK8sClusterID/ followed by the id |
| Tagging.BuildTags | cloud-controller-manager/osc/tags.go:332-353 | the additional tags overridden by the cluster's own ones |
| Tagging.OwnTagsAre | cloud-controller-manager/osc/tags.go:332-353 | the cluster's own tags: none without an id, else the key that contains the id with the lifecycle, and the legacy key with the id exactly when legacy tags are used |
| Tagging.PlanRepair | cloud-controller-manager/osc/tags.go:206-222 | refuses exactly when an expected key holds another non-empty value, whatever the iteration order; otherwise adds exactly the expected tags that are absent or empty |
| Tagging.SendTags | cloud-controller-manager/osc/tags.go:235-283 | at most nine attempts, all with the same tags; success means the tags are on the resource and nothing else changed; a failed attempt changes nothing, so failure means no tag changed, also while others act in between |
| Tagging.ReadRepairClusterTags | cloud-controller-manager/osc/tags.go:193-231 | a foreign value gives an error without any call; nothing missing means no call; otherwise success leaves the missing tags and the cluster's own ones on the resource and changes nothing else |
| Tagging.RepairAddsTheExpected | cloud-controller-manager/osc/tags.go:193-283 | with non-empty expected values a repair keeps every non-empty value, gives every expected key its value, adds no other key, and leaves nothing for a second repair to do |
| Tagging.ExclusiveIffBothLegacy | cloud-controller-manager/osc/tags.go:332-353 | a repaired resource is refused to another cluster exactly when both use legacy tags, because the newer key contains the cluster id |
| Tagging.RepairLeavesRepairedTags | cloud-controller-manager/osc/tags.go:193-283 | the states the repair's contract allows when left alone are exactly the one with the repaired tags |
| GroupCreation.EnsureSecurityGroup | cloud-controller-manager/osc/ccm_cloud.go:811-891 | with others creating and deleting groups at any time: at most 30 creations, at most one of them successful; a returned id has the requested name, lies in the configured net if there is one, and has the cluster's owned tag; a group made by the call has the additional tags overridden by the cluster's own, an adopted one gains only missing and own cluster tags; no other group that was there is changed, on an error none at all, and no rule ever; left alone, an existing group of the name and net is adopted without a creation |
| GroupCreation.ReadByName | cloud-controller-manager/osc/ccm_cloud.go:819-842 | a group of the name and the configured net, or the knowledge that no group of the name lies in that net (or at all without one) at that moment |
| GroupCreation.AdoptGroup | cloud-controller-manager/osc/ccm_cloud.go:836-850 | an adopted group has the name and net asked for, the tags it had and the cluster's own, and is refused when its tags are another owner's |
| GroupCreation.TagNewGroup | cloud-controller-manager/osc/ccm_cloud.go:876-890 | a group returned after its creation carries the name and exactly the additional tags overridden by the cluster's own, also when others acted while it was tagged |
| GroupCreation.NewTagsAre | cloud-controller-manager/osc/ccm_cloud.go:882-888 | key by key: the cluster's key holds owned, the legacy key the id if it is used, every other key what the caller asked for |
| GroupCreation.AdoptedKeepsOtherTags | cloud-controller-manager/osc/ccm_cloud.go:840-852 | an adopted group that was there keeps every tag that is not the cluster's own, and gains no other |
| GroupCreation.OnlyTheReturnedMayDiffer | cloud-controller-manager/osc/ccm_cloud.go:811-891 | of the groups that were there and still are, only the returned one may differ, in its tags alone, and after an error none does |
| GroupCreation.NewGroupCarriesIff | cloud-controller-manager/osc/ccm_cloud.go:882-888 | a new group carries the additional tags exactly when none contradicts the cluster's own ones |
| GroupCreation.AdoptedGroupCarriesIff | cloud-controller-manager/osc/ccm_cloud.go:840-852 | an adopted group carries them exactly when it had those that are not the cluster's own before, and the others agree with the cluster's |
| GroupCreation.CrashLosesAdditionalTags | cloud-controller-manager/osc/ccm_cloud.go:840-890 | a group whose creator stopped before tagging it is recovered without the additional tags a completed call would have put on it |
| GroupCreation.BuildElbSecurityGroupList | cloud-controller-manager/osc/ccm_cloud.go:1055-1096 | the list is never empty: the specified groups, or else the configured or ensured one, then the extra ones, empty entries dropped |
| LoadBalancers.PlanListeners | cloud-controller-manager/osc/osc_loadbalancer.go:209-247 | for the described listeners the plan's calls cannot collide, and their effect matches the desired listeners one to one |
| LoadBalancers.DeleteRemovedListeners | cloud-controller-manager/osc/osc_loadbalancer.go:211-236 | exactly the removals' ports go, with proxy protocol after the policies of their described backends are cleared |
| LoadBalancers.SyncListeners | cloud-controller-manager/osc/osc_loadbalancer.go:208-247 | success with distinct desired ports means a one-to-one match; no creation is ever refused for an occupied port; reporting no change means there was none |
| LoadBalancers.SyncProxyPolicies | cloud-controller-manager/osc/osc_loadbalancer.go:249-293 | policies are rewritten on exactly the desired instance ports whose described state differs from the requested one |
| LoadBalancers.PoliciesAsRequestedIff | cloud-controller-manager/osc/osc_loadbalancer.go:249-293 | policies are as requested exactly when every port a desired listener forwards to holds k8s-proxyprotocol-enabled or does not, as requested |
| LoadBalancers.PoliciesRightIffNoClash | cloud-controller-manager/osc/osc_loadbalancer.go:216-293 | after a pass every desired instance port has the proxy policy iff it is requested, exactly when no desired port that had it was cleared for a removed listener first (the sync reads the description made before the removal) |
| LoadBalancers.MovedServicePortLosesPolicy | cloud-controller-manager/osc/osc_loadbalancer.go:216-293 | an input that clashes: a service port changes while its node port stays |
| LoadBalancers.PolicyClashIff | cloud-controller-manager/osc/osc_loadbalancer.go:216-285 | the clash in terms of the listeners: with proxy protocol, a desired listener forwards to a port that has the policy and that a listener equal to no desired one forwards to |
| LoadBalancers.EnsuredMeans | cloud-controller-manager/osc/osc_loadbalancer.go:92-345 | what success means in terms of what was there: the listeners match for distinct ports, groups and instances of an existing load balancer stay, its policies are as requested up to the clash, and those of a new one always are |
| LoadBalancers.LbCallsMean | cloud-controller-manager/osc/osc_loadbalancer.go:208-293 | what each call on an existing load balancer is: exactly the listeners equal to no desired one are deleted, only desired ones not there are created, policies are cleared on ports of deleted ones or written on desired ports whose state differs |
| LoadBalancers.EnsureLoadBalancer | cloud-controller-manager/osc/osc_loadbalancer.go:92-345 | success leaves the desired listeners, policies as the clash condition says, and other load balancers alone; every call is one the plan needs: no deletion of a wanted listener, no creation of a present one, policies written only on desired ports where they differ or cleared on removed ones |
| LoadBalancers.ConvergedMakesNoListenerCall | cloud-controller-manager/osc/osc_loadbalancer.go:208-293 | with the desired listeners in place a pass makes no listener call, and writes a policy only if some desired port's is not as requested |
| LoadBalancers.RequestedPoliciesAreNotWritten | cloud-controller-manager/osc/osc_loadbalancer.go:249-293 | with the policies as requested a pass writes none; it can only clear those of removed ports |
| LoadBalancers.EnsureLoadBalancerInstances | cloud-controller-manager/osc/osc_loadbalancer.go:516-572 | success leaves exactly the expected instances when the description was current; on any outcome no expected instance is taken away and only expected ones appear; nothing is called when nothing differs |
| NodeGroups.RuleExists | cloud-controller-manager/osc/utils.go:446-494 | true exactly when ports and protocol agree, no fewer ranges are there, and every range and member wanted is found |
| NodeGroups.MembersAreEqualIff | cloud-controller-manager/osc/utils.go:512-525 | members are equal when their groups are, and, only if accounts are compared, their accounts are too, an absent one reading as empty |
| NodeGroups.LetsInIff | cloud-controller-manager/osc/ccm_cloud.go:664-805 | the load balancer's rule counts as there exactly when some permission of all protocols and ports names its group, in whatever account |
| NodeGroups.OneSourceFoundUnderAnyRegrouping | cloud-controller-manager/osc/utils.go:446-494 | for a rule with one range or member the search over the reported rules depends only on the permissions, not on how the cloud groups them |
| NodeGroups.SearchIsRightIff | cloud-controller-manager/osc/utils.go:446-494 | for a rule without services the search agrees with all sources being permitted, under every regrouping, exactly when it has one range and no member, or no range and members that count as the same |
| NodeGroups.TwoRangesMissedWhenSplit | cloud-controller-manager/osc/utils.go:446-494 | an example of the other case: a rule with two ranges is missed when the cloud reports them in two rules |
| NodeGroups.AddSecurityGroupRules | cloud-controller-manager/osc/ccm_cloud.go:664-739 | afterwards a permission of all protocols and ports names the load balancer's group; it is created only when none did; the answer tells whether anything changed; a missing group is an error, the configured group is never touched |
| NodeGroups.RemoveSecurityGroupRules | cloud-controller-manager/osc/ccm_cloud.go:744-805 | exactly the permission of all protocols and ports from the load balancer's group in the own account is gone afterwards; a missing group needs nothing; the answer is true exactly when a rule like it was found |
| NodeGroups.RemovalAnswerMatchesInOneAccount | cloud-controller-manager/osc/ccm_cloud.go:744-805 | wherever the group is named with the account it belongs to, the removal's answer is true exactly when the rules changed |
| NodeGroupUpdate.FindSecurityGroupForInstance | cloud-controller-manager/osc/utils.go:183-236 | the only eligible group (tagged ones if any, else all), none only when no id is there, an error exactly when several are eligible |
| NodeGroupUpdate.ChosenIff | cloud-controller-manager/osc/utils.go:183-236 | a group is chosen exactly when it is the only tagged one of the instance, or no group is tagged and it is the only one; empty ids do not count |
| NodeGroupUpdate.AmbiguousIff | cloud-controller-manager/osc/utils.go:210-232 | the choice is ambiguous exactly between two tagged ids, or between two ids when none is tagged |
| NodeGroupUpdate.GetTaggedSecurityGroups | cloud-controller-manager/osc/ccm_cloud.go:1493-1522 | the ids of the groups with the cluster's key and OscK8sMainSG/ followed by the id set to True |
| NodeGroupUpdate.ActualGroupsAre | cloud-controller-manager/osc/ccm_cloud.go:1562-1597 | the groups taken to be open are those with the cluster's key that have a permission, on whatever ports, whose source is the load balancer's group |
| NodeGroupUpdate.SelectGroups | cloud-controller-manager/osc/ccm_cloud.go:1602-1622 | for every iteration order: an error exactly when some instance's groups are ambiguous, otherwise the groups some instance chose |
| NodeGroupUpdate.CompareToActual | cloud-controller-manager/osc/ccm_cloud.go:1626-1643 | the tri-state map ends as: add for wanted groups that are not open, remove for open ones that are not wanted, nothing for the others |
| NodeGroupUpdate.ApplyChanges | cloud-controller-manager/osc/ccm_cloud.go:1646-1691 | for every iteration order success grants and revokes exactly as the map says; on any outcome only this load balancer's rule, in groups of the map, has changed |
| NodeGroupUpdate.LbGroupPicks | cloud-controller-manager/osc/ccm_cloud.go:1536-1560 | the source group is the last non-empty one the load balancer has, whatever the fallback says; the fallback counts only for a load balancer without entries; it is empty only if every entry is |
| NodeGroupUpdate.UpdateInstanceSecurityGroupsForLoadBalancer | cloud-controller-manager/osc/ccm_cloud.go:1526-1692 | success leaves the groups with exactly the computed changes applied; every call was needed in view of the rules at the start; on any outcome only this load balancer's rule has come or gone |
| NodeGroupUpdate.PassAt | cloud-controller-manager/osc/ccm_cloud.go:1526-1692 | what a finished pass leaves of any one group: a needed one that did not count as open gains the one permission unless one like it is there, a cluster group that named the source group and is not needed loses the one permission, every other one is as before |
| NodeGroupUpdate.PassCallsMean | cloud-controller-manager/osc/ccm_cloud.go:1601-1691 | every call of a pass, finished or not, adds or removes that one permission, at an existing group other than the configured one; it adds exactly at needed groups that do not name the source group, where none like it is there |
| NodeGroupUpdate.PassIsExact | cloud-controller-manager/osc/ccm_cloud.go:1526-1692 | when rules naming the load balancer's group have the controller's shape, a cluster group lets it in afterwards iff some instance chose it, every chosen group does, other groups and all other rules are untouched |
| NodeGroupUpdate.PassInGeneral | cloud-controller-manager/osc/ccm_cloud.go:1626-1691 | without that assumption, exactly when a chosen group lets it in, and exactly when an unchosen one still names it |
| NodeGroupUpdate.OddShapeHidesMissingRule | cloud-controller-manager/osc/ccm_cloud.go:1564-1643 | counterexample: a rule of another shape that names the load balancer's group makes the pass skip the missing rule |
| NodeGroupUpdate.NothingToCall | cloud-controller-manager/osc/ccm_cloud.go:1526-1692 | once exactly the chosen groups are open a pass calls nothing |
| Deletion.CollectGroups | cloud-controller-manager/osc/ccm_cloud.go:1760-1791 | exactly the attached groups that exist, bear the cluster's key (if there is an id) and are not the configured one |
| Deletion.DeleteOnce | cloud-controller-manager/osc/ccm_cloud.go:1796-1813 | deleted plus remaining stays the collected set; conflicts are left for later, other errors end the loop |
| Deletion.DeleteGroups | cloud-controller-manager/osc/ccm_cloud.go:1793-1833 | success exactly when nothing remains; deleted plus remaining is the collected set on every outcome; giving up means ten minutes have passed; at most 62 rounds however the clock runs |
| Deletion.EnsureLoadBalancerDeleted | cloud-controller-manager/osc/ccm_cloud.go:1695-1836 | on any outcome the configured group stays, and a group is tried only after the load balancer is gone, if the load balancer had it (or the public cloud's name stands for none), it bears the cluster's key and is not the configured one; success for an existing load balancer means it and exactly these groups are gone, and the cluster's groups are closed to it; once a group was tried the load balancer is gone, and a failure leaves some group; a missing load balancer counts as success and nothing is called |
| Deletion.UnlinkedAt | cloud-controller-manager/osc/ccm_cloud.go:1717-1741 | what closing does to one group: in a net of its own, unless disabled, the cluster's groups but the configured one lose exactly the one permission, and nothing else changes |
| Deletion.DeleteTwice | cloud-controller-manager/osc/ccm_cloud.go:1695-1836 | a deletion that failed while deleting groups leaves some of them, and the next one calls nothing and succeeds with them still there |
| Deletion.NamedAfterDeletionIff | cloud-controller-manager/osc/ccm_cloud.go:1526-1692 | for every group: after a finished deletion a group with the cluster tag that is not the configured one names the source group exactly when it had a rule of another shape that did, and any other group exactly when it named it before |
| Deletion.UntaggedGroupStaysOpen | cloud-controller-manager/osc/ccm_cloud.go:1580-1585 | an instance's group without the cluster tag is opened by a pass and still open after the deletion |
| Reconcile.OpenOwnGroup | cloud-controller-manager/osc/ccm_cloud.go:1321-1357 | only the first of the service's groups may change, and that not if it is the configured one; a success leaves it permitting exactly the service's ports from its ranges, if and only if what was reported of it fits |
| Reconcile.SourceGroupIs | cloud-controller-manager/osc/ccm_cloud.go:1301-1420 | the group let in is the last non-empty one the load balancer has, or of those it is created with when it has none |
| Reconcile.LinkInstances | cloud-controller-manager/osc/ccm_cloud.go:1420-1430 | success leaves the instances' groups as chosen and exactly the given instances registered, and every call was needed |
| Reconcile.EnsureService | cloud-controller-manager/osc/ccm_cloud.go:1099-1436 | the whole sequence: on any outcome other load balancers are untouched, and every group but the service's first one, its extra ones included, gains or loses at most the permission of this load balancer; success means listeners, backend policies (up to the clash), instances' groups and registered instances are as computed, and the first group permits what is desired, give or take that permission, if and only if the report of it fits; with such a report a reliable cloud means success, and on settled state no rule, listener or registration call is made, and none at all if the policies are right and no proxy protocol is requested |
| Reconcile.SucceededMeans | cloud-controller-manager/osc/ccm_cloud.go:1099-1436 | what success leaves: the groups of a pass that follows the opening of the first group, the listeners for distinct ports, the policies unless proxy protocol met an existing load balancer, and exactly the given instances |
| Reconcile.SuccessSettles | cloud-controller-manager/osc/ccm_cloud.go:1320-1430 | convergence: with rules of the controller's shape, an own group that is no instance's group and a report that fits, success makes ingress rules, listeners, instances' groups and registered instances equal to the desired ones |
| Reconcile.SettledMeans | cloud-controller-manager/osc/ccm_cloud.go:1320-1430 | settled state group by group: the first group permits exactly what is desired, every chosen group lets the load balancer in, and of the cluster's groups exactly the chosen ones do |
| Reconcile.TwoPasses | cloud-controller-manager/osc/ccm_cloud.go:1099-1436 | convergence and rest in one: after a successful pass everything is as desired, a second one makes no rule, listener or registration call whatever its outcome, writes policies only after a clash, and in a reliable cloud both succeed |
| Reconcile.GroupsSettle | cloud-controller-manager/osc/ccm_cloud.go:1353-1420 | opening the own group and then the instances' groups does not disturb what the first step did |
| Runs.UpdateService | cloud-controller-manager/osc/ccm_cloud.go:1839-1886 | a failed registration or deregistration ends the update without an error and without touching any group; otherwise success means instances and groups are as desired |
| Runs.AttachedSourceIs | cloud-controller-manager/osc/ccm_cloud.go:1875-1880 | the group an update lets in is the last non-empty one the load balancer has; for none at all, outside a net, the public cloud's name |
| Runs.EnsuringIsAStep | cloud-controller-manager/osc/ccm_cloud.go:1099-1436 | making sure of a service, whatever its outcome, is a step of the runs below |
| Runs.RunsGrow | cloud-controller-manager/osc/ccm_cloud.go:1099-1886 | runs begin with any groups and go on with any such step |
| Runs.RunKeepsOthersRules | cloud-controller-manager/osc/ccm_cloud.go:1526-1692 | over any run of ensure, update and delete steps of other services, finished or failed, a group they do not manage keeps exactly the rules naming a source group they do not let in |
| Runs.RunKeepsOtherSources | cloud-controller-manager/osc/ccm_cloud.go:1526-1692 | over any such run every other permission of these groups stays as it is |
| Runs.DeletedSourceStaysUnnamed | cloud-controller-manager/osc/ccm_cloud.go:1526-1692 | a cluster group closed by a deletion never names the deleted source group again over any later run of steps that let other groups in |
| Runs.DeletionIsAStep | cloud-controller-manager/osc/ccm_cloud.go:1695-1836 | whatever a deletion's outcome, it keeps that isolation |
| Runs.GroupCreationIsAStep | cloud-controller-manager/osc/ccm_cloud.go:811-891 | finding or creating a group keeps that isolation for every source group |
| Subnets.IsSubnetPublic | cloud-controller-manager/osc/utils.go:275-325 | public exactly when the subnet's table (the last one linked to it, else the last main one) has an internet gateway route; an error exactly when there is no table |
| Subnets.PublicIs | cloud-controller-manager/osc/utils.go:275-325 | position by position: the last table linked to the subnet counts, or the last main one when none is linked, and public means it has a gateway whose id begins with igw |
| Subnets.TableIsOrderFree | cloud-controller-manager/osc/utils.go:280-309 | with one table for each subnet and one main table, the order of tables does not matter |
| Subnets.FindElbSubnets | cloud-controller-manager/osc/ccm_cloud.go:974-1047 | an error exactly when some considered subnet has no table; otherwise for each zone, in zone order, the id no candidate is better than: tagged before untagged, then by id; internal ones must be tagged, others public |
| Subnets.ChoiceMeans | cloud-controller-manager/osc/ccm_cloud.go:974-1047 | the k-th id belongs to a subnet of the k-th zone that has the internal tag, or for other load balancers is public, and to which each other such subnet of the zone loses by the role tag or else by its id; zones are in order and none with a candidate is missing |
| Strings.BeforeIsDictionaryOrder | cloud-controller-manager/osc/ccm_cloud.go:1020-1037 | ids and zones are ordered as in a dictionary: the first differing character decides, and a proper prefix comes first |
| Subnets.ChoiceIsOrderFree | cloud-controller-manager/osc/ccm_cloud.go:985-1047 | the same subnets and tables in any orders give the same list |
| Subnets.PickSubnet | cloud-controller-manager/osc/ccm_cloud.go:1274-1294 | the requested subnet if it is listed, an error if it is not, and by default the least listed id |
| Backoffs.Backoff.ComputeDelayForRequest | cloud-controller-manager/osc/retry_handler.go:134-170 | a decay applies to both counts from the 21st second after the last one, the request is counted after it, and the delay is the one the lemmas below speak of |
| Backoffs.DelayIs | cloud-controller-manager/osc/retry_handler.go:151-170 | no delay while the errors are below a tenth of the requests; from there on the whole seconds of sixty times errors over requests |
| Backoffs.ErrorsStayBelowRequests | cloud-controller-manager/osc/retry_handler.go:134-178 | in every run where each error answers a request of its own since the last decay, requests exceed errors by more than the requests that may still fail |
| Backoffs.DelayIsBounded | cloud-controller-manager/osc/retry_handler.go:134-170 | in such runs the divisor is at least one and every delay a whole number of seconds from 0 to below 60 |
| Backoffs.DelayBelowMaxIff | cloud-controller-manager/osc/retry_handler.go:151-170 | the delay is below the maximum exactly when errors are below requests |
| Backoffs.LateErrorsPassTheMaximum | cloud-controller-manager/osc/retry_handler.go:134-178 | counterexample: forty requests in one second, one more when a decay by any factor up to 0.8 is due, and then an error for each of the forty push the delay past the maximum |
| Backoffs.OnlyTheBiasRemains | cloud-controller-manager/osc/retry_handler.go:123-178 | when every request fails in turn, requests minus errors is four times the product of the decay factors applied |
| Backoffs.ExcessShrinks | cloud-controller-manager/osc/retry_handler.go:134-150 | a request without an error maps ten times the errors minus the requests, q, to d q - 1 |
| Backoffs.RecoveryIsBounded | cloud-controller-manager/osc/retry_handler.go:134-170 | from any counts, and for any timestamps even going back, floor(max(q, 0)) + 1 or more requests without an error end the delay for good |
| InstanceCache.MeetsCriteria | cloud-controller-manager/osc/instances.go:236-259 | accepts a snapshot exactly when it has every instance asked for and is within the maximal age, any age being accepted for a maximal age of zero |
| InstanceCache.FindInstances | cloud-controller-manager/osc/instances.go:266-275 | exactly the given ids the snapshot knows, with its instances |
| InstanceCache.MapById | cloud-controller-manager/osc/instances.go:169-173 | each reported id maps to a reported instance of that id |
| InstanceCache.Cache.Publish | cloud-controller-manager/osc/instances.go:177-185 | a published snapshot replaces the cached one unless that is newer |
| InstanceCache.DescribeAllInstancesUncached | cloud-controller-manager/osc/instances.go:158-188 | with others publishing meanwhile, the answer was read after the call began, the cache holds nothing older than it afterwards and never goes back |
| InstanceCache.DescribeAllInstancesCached | cloud-controller-manager/osc/instances.go:202-219 | the answer suited the criteria at an instant of the call, or was read during the call |
| InstanceCache.CacheIsNewestAndMonotone | cloud-controller-manager/osc/instances.go:158-188 | in every interleaving of callers the cache holds a newest published snapshot at every moment, and its timestamp never goes back |
| InstanceCache.NoCallerIsStuck | cloud-controller-manager/osc/instances.go:158-259 | in every state a caller without an answer can take its next step, and that step is: take the cached snapshot, accept it exactly when it suits, take the time, read, publish |
| InstanceCache.AnswersAreFresh | cloud-controller-manager/osc/instances.go:202-275 | in every interleaving a cached answer holds the cloud's data of an instant within the maximal age and looking up the ids asked for finds exactly them; any other answer was read during the call |
| ProviderId.ProviderIdRoundTrip | cloud-controller-manager/osc/instances_v2.go:223-261 | both parsers recover the id from the printed URL, from the slash form and from the bare id |
| ProviderId.UsualIdsRoundTrip | cloud-controller-manager/osc/instances_v2.go:223-261 | for zones and ids of small letters, digits and dashes, with every form spelled out |
| ProviderId.FoundIdLooksRight | cloud-controller-manager/osc/instances.go:36-89 | what the stricter parser finds begins with i-, has no slash, and ends the trimmed path |
| ProviderId.ParsersAgreeIff | cloud-controller-manager/osc/instances.go:53-89 | where the stricter parser finds an id, the other finds the same exactly when the text after the scheme has at most two slashes and does not end in one |
| ProviderId.JoinOfSplit | cloud-controller-manager/osc/instances.go:71-79 | splitting at slashes loses nothing and leaves tokens without slashes |
| ProviderId.SplitOfJoin | cloud-controller-manager/osc/instances.go:71-79 | splitting undoes the joining of tokens without slashes |

## Left out

- Ingress.SetSecurityGroupIngress: that the result is exact is stated for desired rules of one kind of source each, accounts spelled out, which `Services.PermissionsMeanDesired` shows of the rules the controller builds; for others the run's bounds hold. That nothing is called when nothing must change needs every reported rule to permit something.
- IpRules.IPRulesSet.Insert: the key is the rule itself instead of its JSON text, so injectivity of the encoding is taken for granted.
- Listeners.ListenersEqualIffNormal: folds ASCII letters only, because the full Unicode case folding of the original's comparison is not modelled.
- LoadBalancers.EnsureLoadBalancer: does not model load balancer attributes, tags, subnets, scheme and the warning about changed security groups; no field it does model depends on them.
- LoadBalancers.EnsureLoadBalancerInstances: the order in which instances are listed in a call is arbitrary instead of sorted.
- NodeGroups.AddSecurityGroupRules: takes the one rule the controller asks for instead of a list, and only in a private net; the linking by group name in the public cloud is not modelled.
- NodeGroupUpdate.UpdateInstanceSecurityGroupsForLoadBalancer: requires that the source group is not the public cloud's default one.
- Deletion.CollectGroups: a read with an empty list of ids is taken to select no group; what the real API does then is not visible in the repository.
- Deletion.DeleteGroups: the clock is abstract, runs forward, and a sleep takes at least as long as asked.
- Reconcile.EnsureService: does not model SSL negotiation policies, health checks, annotation parsing and the choice of names; subnets and security groups are inputs that `Subnets` and `GroupCreation` describe; others do not act during the sequence.
- Runs.UpdateService: does not model the SSL negotiation policy step before the registration, and requires that the source group is not the public cloud's default one.
- Subnets.FindElbSubnets: takes the subnets as read; the filter by cluster tag with its fall-back to the own subnet is not modelled.
- Services.BuildListener: lower and upper case are those of ASCII letters, and the annotations are already read into `TlsSettings`.
- Tagging.SendTags: the exponential waiting between attempts is only their number.
- Backoffs.Backoff.ComputeDelayForRequest: counts are reals instead of 32-bit floats, and the power of the decay fraction is a given factor.
- InstanceCache.AnswersAreFresh: the clock of the model never runs backwards, and a read of all instances is one instant.
- ProviderId.ProviderIdRoundTrip: only characters a URL path keeps as they are, and an empty authority; the rest of URL parsing is not modelled.
- Error texts, logging, metrics, SDK plumbing and credentials.
- Routes, which the controller reports as unsupported, node addresses, zones, metadata and informers.
- Group names and accounts of members in rules are not compared by name; the cloud resolves an absent account to the caller's.
- AWS-typed leftovers that mirror members modelled here.
