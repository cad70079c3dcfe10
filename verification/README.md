# Verified model of the operational cloud functions

A Dafny model of the functions under `functions/` that grant access to and delete cloud resources in
several invocations, with proofs of what repeated, failing and concurrent invocations do to the cloud.
Check it with `dafny verify dfyconfig.toml`.

| file | models |
|---|---|
| `SshPolicy.dfy`, `SshPolicyProperties.dfy` | the rewrite of an IAM policy by the GCP ssh-access function, and what it means for everybody's access over time |
| `SshOperation.dfy`, `SshRuns.dfy` | one invocation with two policies and failing writes; runs of them, one after another or interleaved |
| `HealthyBackend.dfy` | the feeder, workers, channels and collector that look for a healthy backend, under every schedule |
| `Leftovers.dfy`, `CleanupRuns.dfy`, `CleanupMeaning.dfy` | the GCP load balancer cleanup: what each execute deletes, what it reports, when repeated executes are finished, and all of it in terms of the cloud alone |
| `Volume.dfy`, `VolumeSnapshots.dfy` | the decision whether to delete a volume in Go and in Rust, and finding and naming its snapshot |
| `VolumeProtocol.dfy`, `VolumeOnce.dfy` | snapshot-then-delete over time, while others attach, write, detach and recreate the disk |
| `AzureLoadBalancer.dfy`, `AzureLoadBalancerSteps.dfy`, `AzureLoadBalancerRuns.dfy` | cutting a frontend out of an Azure load balancer, the step machine around it, and its executes among other writers |
| `AzureVmDelete.dfy` | the conditional PATCH and DELETE of an Azure VM among other writers |
| `ResourceIds.dfy`, `ArmClient.dfy` | Azure resource IDs, retries and pagination |
| `AzureAccess.dfy` | the expiry kept in a role assignment's description, the sweep of expired ones, and granting again |
| `AwsLoadBalancer.dfy` | the AWS load balancer and target group deletion |
| `Strings.dfy`, `Decimals.dfy`, `Wrappers.dfy` | what the standard libraries of Go and Rust provide |

Times are Unix seconds, except in the SSH policies: their conditions may hold fractions of a second, so
there they are nanoseconds. Each cloud call is a step whose outcome is a parameter: what the service
answers, whether a write fails, whether a failed write took effect, and what others changed meanwhile.

Where the code does less than its documentation or tests suggest, the model follows the code:

- The SSH functions print expiries in whole seconds. A hand-made binding with the function's marker and a
  fraction of a second is cut short when it is granted again, and a failed login write can then leave login
  without a tunnel (`FractionalGrantLosesCover`, and exactly when in `WhenEveryWriteKeepsCover`).
  Everything the function writes itself is whole.
- At most one pending snapshot still counts only if the function's clock never goes back between executes.
  Staying within the tolerated skew isn't enough (`WhenAtMostOneIsPending`, `WhenStartIsSecond`).
- Writes to a resource that is reported without an ETag are unconditional, so they can hit one the guards
  never saw (`WhenWritesHitWhatWasRead`, `WhenDeleteIsSafe`, `WhenDeleteAfterPatchIsSafe`).
- Without the time of the last detach, a snapshot can miss data written since (`WhenNoDataIsLost`).
- `healthyBackend` returns a healthy member with an empty URL as none (`WhenNothingFoundIsRight`).
- The `remaining` of the AWS function looks at other target groups than the next execute does
  (`WhenRemainingIsRight`).
- Go accepts a volume claim without a PersistentVolume for an empty PersistentVolume name and Rust doesn't;
  both reject the empty name earlier (`SameDecision`).

## Model

| member | source | states |
|---|---|---|
| SshPolicy.Policy.Edit | functions/go/gcp/internal/sshaccess/grant.go:99-129 | the loop rewrites the policy in place to `EditOf` of the old one, the function the lemmas below are about |
| SshPolicy.Policy.Grants | functions/go/gcp/internal/sshaccess/grant.go:72-81 | the loop returns `GrantsOf` of the bindings |
| SshPolicyProperties.GrantsAreTheLatest | functions/go/gcp/internal/sshaccess/grant.go:70-81 | the grants reported are exactly the managed roles the member has through unexpired bindings of the function, each with its latest expiry |
| SshPolicyProperties.OthersKeepTheirAccess | functions/go/gcp/internal/sshaccess/grant.go:99-129 | an edit for one member leaves every other member's access the same, for every role and every time from now on |
| SshPolicyProperties.MemberGetsExactlyTheGrant | functions/go/gcp/internal/sshaccess/grant.go:95-129 | at every time the member then has what unmanaged bindings give, and the granted role until the whole second of the expiry, and nothing else |
| SshPolicyProperties.UnmanagedBindingsAreKept | functions/go/gcp/internal/sshaccess/grant.go:99-106 | the bindings the function doesn't manage are kept exactly, in order |
| SshPolicyProperties.EditTreatsEachBinding | functions/go/gcp/internal/sshaccess/grant.go:49-61 | a binding without the function's title, timestamp condition or roles stays, as does another's unexpired one; a marked one left is unexpired and not the member's, or the grant, which describes when its condition ends |
| SshPolicyProperties.GrantsAfterEdit | functions/go/gcp/internal/sshaccess/grant.go:72-129 | the grants reported after an edit are exactly the role granted, or none after a revoke or an expiry already past |
| SshPolicyProperties.UnchangedMeansSameAccess | functions/go/gcp/internal/sshaccess/grant.go:117-128 | an edit reported as no change, granting until a whole second or revoking, gives every member the same access at every time, past ones too |
| SshPolicyProperties.UnchangedIsExactForWholeSeconds | functions/go/gcp/internal/sshaccess/grant.go:117-128 | for an edit reported as no change, the member's grants stay the same at all times if and only if it revoked or granted until a whole second |
| SshPolicyProperties.UnchangedFractionalExpiryDiffers | functions/go/gcp/internal/sshaccess/grant.go:117-143 | an input where no change is reported although the rewritten policy ends the access early |
| SshPolicyProperties.SecondEditChangesNothing | functions/go/gcp/internal/sshaccess/grant.go:95-129 | a second edit with the same arguments is no change, finds nothing expired and leaves the policy as it is, if and only if it revokes or grants a managed role until a whole second to come |
| SshPolicyProperties.GrantedAfterEdit | functions/go/gcp/internal/sshaccess/grant.go:99-143 | what the function's own bindings give after an edit: the member exactly the grant, the others what they had |
| SshOperation.ExtendTo | functions/go/gcp/internal/sshaccess/operation.go:184-191 | visiting the reported grants in any order finds the latest of the start and of all the member's unexpired grants |
| SshOperation.Target | functions/go/gcp/internal/sshaccess/operation.go:178-193 | `roles/compute.osAdminLogin` for an admin, `roles/compute.osLogin` for a user, none for a revoke, and the latest of the time asked for and all grants in both policies |
| SshOperation.Apply | functions/go/gcp/internal/sshaccess/operation.go:91-125 | both policies are edited, only changed ones written, login last on a grant and first on a revoke, and nothing after a failed write |
| SshOperation.Run | functions/go/gcp/internal/sshaccess/operation.go:43-89 | a plan or a refused execute changes no policy; a done or failed execute leaves the cloud in the last state of `Execute` |
| SshRuns.TargetNeverShortens | functions/go/gcp/internal/sshaccess/operation.go:178-193 | a grant's expiry is no earlier than asked nor than any grant the member has, and whole if those are |
| SshRuns.WhenEveryWriteKeepsCover | functions/go/gcp/internal/sshaccess/operation.go:94-125 | if whoever has login through the function has the tunnel at least as long, then so after every write of an execute, failed, lost or applied, if and only if it revokes, leaves the tunnel policy unwritten, or writes a tunnel whose whole second isn't before the end of the login there is |
| SshRuns.EveryWriteKeepsCover | functions/go/gcp/internal/sshaccess/operation.go:94-125 | with whole seconds, which the function always writes, every write keeps the login covered |
| SshRuns.LoginIsAlwaysCovered | functions/go/gcp/internal/sshaccess/operation.go:110-112 | the same after every write of every run of grants and revokes one after another, whatever writes fail |
| SshRuns.FractionalGrantLosesCover | functions/go/gcp/internal/sshaccess/operation.go:94-125 | with a hand-made fractional expiry, one failed login write leaves login without a tunnel |
| SshRuns.GrantEndsTogetherAndNeverShortens | functions/go/gcp/internal/sshaccess/operation.go:178-193 | after a done grant login and tunnel end together, in the role asked for, never before what was asked or what the member had |
| SshRuns.WhenGrantEndsTogether | functions/go/gcp/internal/sshaccess/operation.go:178-193 | with any expiries, login and tunnel end together after a done grant if and only if both policies are written, neither is, or the time is a whole second |
| SshRuns.GrantGivesTheRoleAsked | functions/go/gcp/internal/sshaccess/grant.go:34-40 | after a done grant a user has `roles/compute.osLogin` and an admin `roles/compute.osAdminLogin` as long as the tunnel, at least as long as asked, and neither has the other's |
| SshRuns.DoneReports | functions/go/gcp/internal/sshaccess/operation.go:91-125 | a done execute reports how many expired bindings both policies had, and no change only if it leaves both as they were |
| SshRuns.RevokeRemovesBoth | functions/go/gcp/internal/sshaccess/operation.go:94-125 | after a done revoke the member has neither through the function |
| SshRuns.WriteBackTouchesOneMember | functions/go/gcp/internal/iam/policy.go:10-15 | a write conditional on the etag read, among any other writers, changes nobody else's access and no unmanaged binding |
| SshRuns.InterleavingsSpareOthers | functions/go/gcp/internal/iam/policy.go:10-15 | any interleaving of invocations for other members leaves a member's access and the unmanaged bindings as they were |
| HealthyBackend.StepLowersMeasure | functions/go/gcp/internal/lbfrontenddelete/operation.go:144-191 | every step of a goroutine or of the caller lowers a natural number, before and after the cancellation |
| HealthyBackend.EveryScheduleEnds | functions/go/gcp/internal/lbfrontenddelete/operation.go:144-191 | no schedule is longer than three steps a member, one a worker and four more |
| HealthyBackend.NeverStuck | functions/go/gcp/internal/lbfrontenddelete/operation.go:144-191 | every reachable state in which the collector hasn't returned has a step of a goroutine enabled |
| HealthyBackend.NothingIsLeftRunning | functions/go/gcp/internal/lbfrontenddelete/operation.go:144-191 | when the collector has returned, the feeder and every worker have ended |
| HealthyBackend.AtMostTenAtOnce | functions/go/gcp/internal/lbfrontenddelete/operation.go:135-159 | in every reachable state there are as many workers as members but at most ten |
| HealthyBackend.ReturnedWasAnswered | functions/go/gcp/internal/lbfrontenddelete/operation.go:179-190 | a member returned is one of the target's and answered healthy, an error returned was answered, never both; the first such answer decides and cancels |
| HealthyBackend.EmptyMeansAllUnhealthy | functions/go/gcp/internal/lbfrontenddelete/operation.go:138-191 | no member and no error mean every member was asked exactly once and answered unhealthy, unless the caller gave up or a URL is empty |
| HealthyBackend.WhenNothingFoundIsRight | functions/go/gcp/internal/lbfrontenddelete/operation.go:179-190 | over all schedules and answers, finding nothing means every member is unhealthy if and only if no member's URL is empty; otherwise there is a schedule that loses a healthy one |
| HealthyBackend.EveryScheduleFindsHealth | functions/go/gcp/internal/lbfrontenddelete/operation.go:138-191 | with fixed health and no failures, every schedule returns a healthy member if and only if there is one |
| Leftovers.ReadLoops | functions/go/gcp/internal/lbfrontenddelete/operation.go:55-133 | the lookups by kind and name collect what `Read` says is left |
| Leftovers.StepsLoops | functions/go/gcp/internal/lbfrontenddelete/leftovers.go:128-187 | the appending loops build `Steps` |
| Leftovers.DeleteItem | functions/go/gcp/internal/lbfrontenddelete/operation.go:194-207 | the outcome of one deletion is recorded in its own item and no other |
| Leftovers.DeleteLoop | functions/go/gcp/internal/lbfrontenddelete/operation.go:43-50 | the loop deletes what is due in order, records each outcome in place and stops at the first failure |
| Leftovers.Run | functions/go/gcp/internal/lbfrontenddelete/operation.go:23-52 | one invocation deletes and reports what `Execute` says, or on a plan nothing and what `Plan` says |
| CleanupRuns.GuardsMean | functions/go/gcp/internal/lbfrontenddelete/leftovers.go:74-125 | the guards pass if and only if something is left, a remaining rule is the Service's and points at a target pool or backend service, and no backend of the health target is healthy |
| CleanupMeaning.GuardsPassMeans | functions/go/gcp/internal/lbfrontenddelete/leftovers.go:74-125 | in terms of the cloud: a resource of the load balancer is left, the rule, while there, is described as the Service's and points at a pool or backend service, and the target whose health matters has no healthy backend |
| CleanupRuns.OnlySafeDeletions | functions/go/gcp/internal/lbfrontenddelete/leftovers.go:54-56 | only resources of the load balancer described as the Service's are deleted; all but the rule once it is gone; a target only if no rule of the region points at it, an address only if it isn't in use, a health check only once the targets are gone |
| CleanupMeaning.StartsExactlyWhatIsSafe | functions/go/gcp/internal/lbfrontenddelete/leftovers.go:128-187 | if the guards pass and nothing is busy, exactly those are started to be deleted |
| CleanupMeaning.SafeMeans | functions/go/gcp/internal/lbfrontenddelete/operation.go:55-97 | they have the load balancer's names and region, and the first of the two description keys that holds a string names the Service |
| CleanupRuns.RunsOnlyDeleteSafely | functions/go/gcp/internal/lbfrontenddelete/leftovers.go:127-187 | the same for every deletion of every run, whatever else changes the cloud in between |
| CleanupRuns.StepsAreDecisions | functions/go/gcp/internal/lbfrontenddelete/leftovers.go:128-187 | the steps are, in order, one decision for each resource read |
| CleanupMeaning.AllKeptMeans | functions/go/gcp/internal/lbfrontenddelete/leftovers.go:128-187 | everything is kept if and only if each resource left isn't the Service's or, with the rule gone, is a target or address others use, or a health check all of whose remaining targets stay |
| CleanupMeaning.RemainingIsExact | functions/go/gcp/internal/lbfrontenddelete/operation.go:51-51 | a done execute reports something remaining if and only if a resource that is to go wasn't started to be deleted |
| CleanupMeaning.HealthTargetMeans | functions/go/gcp/internal/lbfrontenddelete/leftovers.go:115-125 | it asks about the load balancer's own target the rule points at, or else the one the rule's URL names, and without either about the target of the load balancer's name |
| CleanupMeaning.RuleTargetOfUrl | functions/go/gcp/internal/lbfrontenddelete/operation.go:106-119 | a URL's target is looked up in the region and under the name the URL gives, among the pools or else the backend services |
| CleanupRuns.NotRemainingMeansFinished | functions/go/gcp/internal/lbfrontenddelete/operation.go:51-51 | after a done execute that reports nothing remaining, whatever was busy or failed before, and its deletions, any number of reruns finds only resources to keep and changes nothing |
| CleanupRuns.PlanIsExact | functions/go/gcp/internal/lbfrontenddelete/operation.go:36-38 | a plan reports something remaining if and only if not every resource is to be kept |
| CleanupRuns.ThreeExecutesFinish | functions/go/gcp/internal/lbfrontenddelete/function.go:14-16 | if the guards pass, nothing is healthy or busy and nothing else changes the load balancer, three executes leave only resources to keep, and any more change nothing |
| Volume.WhenEvaluateActs | functions/go/gcp/internal/volume/deletion.go:44-84 | exactly when an execute deletes and exactly when it starts a snapshot |
| Volume.SameDecision | functions/crates/core/src/volume.rs:176-285 | Go and Rust return the same guards and step for a volume, for every action and snapshot, if and only if the name is given or the volume's own is recorded or absent with its claim |
| Volume.SameWithoutVolume | functions/go/gcp/internal/volume/deletion.go:45-47 | both only say that a volume isn't there, and do nothing |
| Volume.SameDecisionFromMetadata | functions/crates/core/src/volume.rs:121-142 | read from the same metadata, both build the same claim and decide the same |
| Volume.SamePolicy | functions/crates/core/src/volume.rs:67-75 | both require a snapshot of the same requests, and neither only where skipping is asked for and allowed |
| Volume.SameWindow | functions/crates/core/src/volume.rs:35-41 | both count the same snapshots: those started in the last 86400 seconds, or up to 300 ahead, and after the last detach |
| VolumeSnapshots.Latest | functions/go/gcp/internal/volumedelete/snapshots.go:45-62 | the loop finds the last listed of the snapshots that count and started last, or none if none counts |
| VolumeSnapshots.LatestIsUnique | functions/go/gcp/internal/volumedelete/snapshots.go:45-46 | there is only one such snapshot |
| VolumeSnapshots.ChainFindsLatest | functions/bins/volume-delete-azure/src/main.rs:147-162 | the Rust iterator chain finds the snapshot the Go loop finds |
| VolumeSnapshots.AzureStatusMeans | functions/bins/volume-delete-azure/src/main.rs:131-195 | missing if and only if no snapshot counts; else that of the latest that does: complete if and only if it succeeded and is at 100 percent, or has none on a disk that isn't copied in the background, failed if and only if it failed or was canceled |
| VolumeSnapshots.AzureCompletedIsOfThisDisk | functions/bins/volume-delete-azure/src/main.rs:131-195 | a snapshot reported complete is the latest that counts, of this very disk by unique ID, after the last detach, succeeded, with no copying left |
| VolumeSnapshots.IsValidName | functions/go/gcp/internal/compute/names.go:30-42 | the byte loop accepts exactly the RFC 1035 names |
| VolumeSnapshots.SnapshotNameIsValid | functions/go/gcp/internal/volumedelete/params.go:50-57 | a snapshot of a validly named disk has a valid name if and only if the time's digits fit, as up to 12 digits always do |
| VolumeSnapshots.SnapshotNamesDiffer | functions/go/gcp/internal/volumedelete/params.go:50-57 | snapshots of one disk started in different seconds have different names |
| VolumeSnapshots.SnapshotNameMeans | functions/go/gcp/internal/volumedelete/params.go:50-57 | the name is at most 40 characters of the disk's without dashes at their end, `-predelete-` and the time |
| VolumeProtocol.StatusMeans | functions/go/gcp/internal/volumedelete/snapshots.go:24-61 | missing if and only if no labelled snapshot counts; else that of the latest that does: complete if and only if READY, failed if and only if FAILED or DELETING |
| VolumeProtocol.NoDataIsLost | functions/go/gcp/internal/volumedelete/operation.go:30-83 | in every run with reported detaches, an execute that deletes the disk finds it unattached and has a completed snapshot of that disk's ID that counts and holds its contents, unless the caller skipped it and the installation lets it |
| VolumeProtocol.WhenNoDataIsLost | functions/go/gcp/internal/volume/snapshot.go:64-70 | over all runs of a cloud, an execute that must snapshot only deletes a disk with such a snapshot if and only if the cloud reports detaches |
| VolumeProtocol.UnreportedDetachLosesData | functions/go/gcp/internal/volume/snapshot.go:64-70 | a run without the detach time in which the disk would be deleted with no completed snapshot of its contents |
| VolumeProtocol.ComputeEngine.Inspect | functions/go/gcp/internal/volumedelete/operation.go:61-83 | the disk and, if required, the status of its latest labelled snapshot that counts |
| VolumeProtocol.ComputeEngine.Run | functions/go/gcp/internal/volumedelete/operation.go:30-109 | a plan changes nothing; an execute makes exactly the one change of its step |
| VolumeOnce.StartsOnlyWithoutPending | functions/go/gcp/internal/volume/deletion.go:62-84 | a snapshot is only started when none in progress counts |
| VolumeOnce.AtMostOnePending | functions/go/gcp/internal/volume/deletion.go:62-84 | in every run whose clock readings stay within the skew and don't go back, no two snapshots the function started of the disk are pending and count |
| VolumeOnce.WhenStartIsSecond | functions/go/gcp/internal/volume/deletion.go:62-84 | an execute that starts a snapshot adds to a pending one that counts at a later reading if and only if one was too old for its clock and isn't for the later reading, which is then earlier |
| VolumeOnce.TwoPendingWhenClockGoesBack | functions/go/gcp/internal/volume/snapshot.go:15-16 | a run whose executes' readings stay within the skew and never go back, and in which two are pending and count for a right clock behind the last execute's |
| VolumeOnce.WhenAtMostOneIsPending | functions/go/gcp/internal/volume/snapshot.go:15-16 | over all such runs and readings within the skew, at most one is pending and counts if and only if the clock doesn't go back |
| AzureLoadBalancer.FindOwned | functions/bins/lb-frontend-delete-azure/src/main.rs:598-631 | telling the frontend's rules from the others and collecting probes from each gives what `OwnedByFrontend` defines over all rules |
| AzureLoadBalancer.List.Retain | functions/bins/lb-frontend-delete-azure/src/main.rs:641-653 | taking out one item at a time leaves the items to keep, in order |
| AzureLoadBalancer.Body.RemoveFrontend | functions/bins/lb-frontend-delete-azure/src/main.rs:633-658 | the three lists of the body are cut down in place, and the ETag dropped, to `WithoutFrontend` of what was read |
| AzureLoadBalancer.OnlyWhatTheFrontendOwnsGoes | functions/bins/lb-frontend-delete-azure/src/main.rs:598-658 | with unique names, exactly the frontend, the rules using it and the probes no other rule uses go; the rest stays unchanged and in order |
| AzureLoadBalancer.ExactlyWhatPointsAtItGoes | functions/bins/lb-frontend-delete-azure/src/main.rs:598-658 | with unique names and internal references, exactly the frontend, the rules whose ID reference is its and the probes only they refer to go, and the ETag; nothing else changes |
| AzureLoadBalancer.ReferencesStayIntact | functions/bins/lb-frontend-delete-azure/src/main.rs:598-658 | with unique names and internal references, every remaining rule still points at a remaining frontend and a remaining probe |
| AzureLoadBalancer.RemovingTwiceIsRemovingOnce | functions/bins/lb-frontend-delete-azure/src/main.rs:633-658 | removing the frontend again changes nothing |
| AzureLoadBalancerSteps.ValidatedFrontend | functions/bins/lb-frontend-delete-azure/src/main.rs:193-209 | a Service frontend is rejected if and only if it is longer than 69 characters, and an accepted one is a name that can be part of an ID |
| AzureLoadBalancerSteps.ServiceFrontendMeans | functions/bins/lb-frontend-delete-azure/src/main.rs:288-305 | a Service frontend is `a`, 31 lower-case hex digits and perhaps a dash with more name characters |
| AzureLoadBalancerSteps.ValidatedPublicIp | functions/bins/lb-frontend-delete-azure/src/main.rs:204-209 | the public IP is the one named `kubernetes-` and the frontend in the load balancer's resource group |
| AzureLoadBalancerSteps.ReadHealth | functions/bins/lb-frontend-delete-azure/src/main.rs:308-341 | the loop asks about exactly the rules using the frontend; one that can't be asked about, or doesn't answer in time, is unknown |
| AzureLoadBalancerSteps.ServicesMean | functions/bins/lb-frontend-delete-azure/src/main.rs:380-407 | a tag lists the Service alone if and only if it is a comma-separated list whose only part that isn't blank is the Service's name |
| AzureLoadBalancerSteps.PlanIsExact | functions/bins/lb-frontend-delete-azure/src/main.rs:359-547 | which step is chosen and exactly when its guards pass: for a frontend if and only if it is `Removable`, for the public IP if and only if it lists the Service alone and isn't in use |
| AzureLoadBalancerSteps.RemainingIsExact | functions/bins/lb-frontend-delete-azure/src/main.rs:538-541 | once the change of an execute has finished, `remaining` is true if and only if the next one would do something |
| AzureLoadBalancerSteps.TwoExecutesFinish | functions/bins/lb-frontend-delete-azure/src/main.rs:9-19 | after two finished executes nothing is left to do |
| AzureLoadBalancerRuns.NoUpdateIsOverwritten | functions/bins/lb-frontend-delete-azure/src/main.rs:211-286 | however executes, each with its two reads, and other writers interleave, a load balancer or public IP reported with its ETag is only changed while it is as the guards found it |
| AzureLoadBalancerRuns.WhenWritesHitWhatWasRead | functions/crates/azure/src/arm.rs:275-293 | whatever others change after the reads, a write only hits what was read if and only if that was reported with its ETag |
| AzureLoadBalancerRuns.DeletesOnlyTheServicesIp | functions/bins/lb-frontend-delete-azure/src/main.rs:382-411 | in every run, a public IP's tag, when it is deleted, lists the Service and no other, it isn't in use, and the load balancer was read without the frontend |
| AzureLoadBalancerRuns.DeletesOnlyAnUnusedLoadBalancer | functions/bins/lb-frontend-delete-azure/src/main.rs:487-506 | in every run, a load balancer has, when deleted, one frontend, the Service's, and no pool member |
| AzureLoadBalancerRuns.RemovesOnlyAnUnusedFrontend | functions/bins/lb-frontend-delete-azure/src/main.rs:413-506 | in every run, any other change takes exactly the frontend and what goes with it out of what is there at that moment, leaving another frontend |
| AzureLoadBalancerRuns.ChangesOnlyWhatIsRemovable | functions/bins/lb-frontend-delete-azure/src/main.rs:413-506 | in every run, a load balancer changed or deleted is idle at that moment, no outbound or NAT rule uses the frontend, its rules are named after it and reported without healthy backends, and its public IP, if the cloud provider's, was read as the Service's alone |
| AzureLoadBalancerRuns.Network.Handle | functions/bins/lb-frontend-delete-azure/src/main.rs:184-286 | one invocation with others' changes between its two reads and before its write: nothing on a plan or a failed guard, else the one change of its step if what it changes still has the ETag read, and an error if not and it is still there |
| AzureVmDelete.BuildBody | functions/bins/vm-delete-azure/src/main.rs:279-309 | the loops set the option of every list entry |
| AzureVmDelete.GuardsMean | functions/bins/vm-delete-azure/src/main.rs:211-255 | the guards pass if and only if the VM is there, in no scale set, without a tag that starts with `aks-managed-` in any case, with a managed OS disk and Succeeded or Failed |
| AzureVmDelete.DeleteOptionsMean | functions/bins/vm-delete-azure/src/main.rs:257-277 | the options are set if and only if those of the OS disk and every network interface are `Delete` and that of no data disk is |
| AzureVmDelete.PatchSetsTheOptions | functions/bins/vm-delete-azure/src/main.rs:257-309 | the PATCH turns any VM into one whose OS disk and network interfaces are `Delete` and whose data disks are `Detach` |
| AzureVmDelete.PatchKeepsTheRest | functions/bins/vm-delete-azure/src/main.rs:279-309 | the PATCH keeps the place and every other field of each list entry, and all else |
| AzureVmDelete.PatchKeepsTheGuards | functions/bins/vm-delete-azure/src/main.rs:211-255 | a VM that passed the guards passes them after its PATCH has succeeded |
| AzureVmDelete.DeletesOnlyWhatIsSafe | functions/bins/vm-delete-azure/src/main.rs:141-204 | under any interleaving of invocations and other writers, a DELETE that takes effect hits a VM that, at that moment, is all that and has its delete options set |
| AzureVmDelete.WhenDeleteIsSafe | functions/crates/azure/src/arm.rs:275-293 | whatever others change after a VM was read as safe to delete, the DELETE only takes effect on a safe one if and only if the VM came with its ETag |
| AzureVmDelete.WhenDeleteAfterPatchIsSafe | functions/bins/vm-delete-azure/src/main.rs:165-198 | the same after a PATCH, if and only if the VM read and the PATCH's answer both came with their ETags |
| AzureVmDelete.WithoutEtagDataCanGo | functions/crates/azure/src/arm.rs:275-293 | without an ETag the DELETE of any VM read can take a data disk that was attached since |
| AzureVmDelete.Azure.Handle | functions/bins/vm-delete-azure/src/main.rs:141-204 | one invocation with changes by others before each write removes only a safe VM, and nothing on a plan or a failed guard; with no others, a VM whose guards pass is deleted with its options set, or kept patched if the PATCH hasn't finished |
| ResourceIds.ParseOfId | functions/crates/azure/src/arm.rs:92-145 | parsing the printed ID of a well-formed resource of an accepted kind gives it back |
| ResourceIds.IdOfParse | functions/crates/azure/src/arm.rs:92-163 | a parsed resource is well formed and its ID is the one parsed, up to ASCII case |
| ResourceIds.NormalisingIsIdempotent | functions/crates/azure/src/arm.rs:92-145 | parsing the normalised ID gives the same resource |
| ResourceIds.AcceptedIds | functions/crates/azure/src/arm.rs:91-189 | an ID is accepted if and only if it is that of a well-formed resource up to ASCII case |
| ResourceIds.IdHasNineSegments | functions/crates/azure/src/arm.rs:92-145 | no part of a well-formed resource adds or removes a path segment |
| ResourceIds.NamesMean | functions/crates/azure/src/arm.rs:181-189 | a name is 1 to 80 letters, digits, dashes, underscores and dots, starting with one of the first two |
| ResourceIds.GroupsMean | functions/crates/azure/src/arm.rs:172-179 | a resource group is 1 to 90 bytes of those, parentheses and other letters and digits, not ending in a dot |
| ResourceIds.PartsAreSafe | functions/crates/azure/src/arm.rs:100-103 | neither can hold a slash, question mark, hash or percent sign, or be a dot or two |
| ResourceIds.GuidsMean | functions/crates/azure/src/arm.rs:165-171 | a GUID is groups of 8, 4, 4, 4 and 12 hex digits with dashes between |
| ResourceIds.KindsAreDistinct | functions/crates/azure/src/arm.rs:47-79 | no two kinds of resource the functions accept are spelled alike, so all of this holds for any choice of them |
| ResourceIds.SiblingParses | functions/crates/azure/src/arm.rs:127-134 | a sibling exists if and only if its name is one, is in the same resource group and parses back |
| ResourceIds.ChildIsBelow | functions/crates/azure/src/arm.rs:147-150 | a child's ID is the resource's and two more segments, and is never accepted as a resource's |
| ArmClient.RetryableMeans | functions/crates/azure/src/arm.rs:593-608 | 429 and 503 are retried by any method, 500, 502 and 504 by a GET only, and nothing else |
| ArmClient.RetryWaitMeans | functions/crates/azure/src/arm.rs:610-621 | a retry waits the Retry-After seconds or 1 and then 2 seconds, at most 4 |
| ArmClient.Send | functions/crates/azure/src/arm.rs:534-569 | at most three attempts, exactly until one isn't to be retried, waiting that long after each and at most eight seconds; a write takes effect at most once if 429 and 503 weren't processed |
| ArmClient.List | functions/crates/azure/src/arm.rs:363-396 | a list is all pages up to the end or an error, or empty for a collection that isn't there |
| AzureAccess.ExpiryReadsBack | functions/bins/ssh-access-azure/src/main.rs:161-178 | the expiry in a description reads back if and only if it isn't negative, for every 64-bit time |
| AzureAccess.ExpiresAtMeans | functions/bins/ssh-access-azure/src/main.rs:159-178 | an expiry is read if and only if the assignment is of one of the two login roles, to a user, and its description is the marker, blanks, `expires=` and the digits of that 64-bit time |
| AzureAccess.DueMeans | functions/bins/ssh-access-azure/src/main.rs:439-447 | the sweep removes an assignment if and only if it is such a one, expired, and strictly below the scope in any case |
| AzureAccess.Expire | functions/bins/ssh-access-azure/src/main.rs:422-463 | the sweep attempts exactly the expired function-made assignments strictly below each scope whose listing succeeded, and ends well if and only if nothing failed |
| AzureAccess.GrantNeverShortens | functions/bins/ssh-access-azure/src/main.rs:337-379 | a grant with no others in between succeeds if and only if the role is unassigned or granted, ends at the later of asked and had, and changes nothing else |
| AzureAccess.CreationRaceKeepsTheLater | functions/bins/ssh-access-azure/src/main.rs:346-374 | of two grants that both found none, the second extends the first's assignment to the later expiry |
| AzureAccess.Remove | functions/bins/ssh-access-azure/src/main.rs:299-334 | only expired grants and, on a revoke, the principal's are removed, and only a failure of the latter stops the removal |
| AzureAccess.Execute | functions/bins/ssh-access-azure/src/main.rs:299-380 | the removal loop, then the grant, give what `Executed` defines |
| AzureAccess.ExecutedMeans | functions/bins/ssh-access-azure/src/main.rs:299-380 | a done revoke leaves the principal no grant; a grant succeeds if and only if the role is unassigned, granted, or its expired assignment could be removed, and ends at the later of asked and had; nothing else appears |
| AzureAccess.ExecutedKeeps | functions/bins/ssh-access-azure/src/main.rs:299-380 | done or not, an execute keeps every unexpired grant not revoked for at least as long, unchanged unless it is the one asked for, and every other assignment as it is |
| AzureAccess.GrantsLast | functions/bins/ssh-access-azure/src/main.rs:337-379 | over any run of grants and revokes, whatever removals fail, a grant keeps at least its expiry until then or until its principal is revoked |
| AzureAccess.OtherAssignmentsLast | functions/bins/ssh-access-azure/src/main.rs:299-334 | no run touches an assignment the function didn't make |
| AwsLoadBalancer.OwnedMeans | functions/bins/lb-delete-aws/src/main.rs:440-460 | which tags say that a resource was created for the Service in the cluster |
| AwsLoadBalancer.GuardsMean | functions/bins/lb-delete-aws/src/main.rs:457-521 | the guards pass if and only if the load balancer was, isn't protected or provisioning and has no live targets, or, without it, there are groups that were and all of those are unused and have none |
| AwsLoadBalancer.DeletesExactly | functions/bins/lb-delete-aws/src/main.rs:239-262 | if they pass, the load balancer goes, or exactly the groups created for the Service |
| AwsLoadBalancer.OnlySafeDeletions | functions/bins/lb-delete-aws/src/main.rs:203-265 | only a load balancer and target groups tagged as the Service's are deleted, unprotected, without live targets, the groups once no load balancer uses them |
| AwsLoadBalancer.WhenRemainingIsRight | functions/bins/lb-delete-aws/src/main.rs:219-230 | `remaining` agrees with the next execute if and only if the load balancer uses a group exactly when some group is tagged |
| AwsLoadBalancer.RemainingMissesTaggedGroups | functions/bins/lb-delete-aws/src/main.rs:219-230 | a world where it reports nothing remaining although the next execute deletes a target group |
| AwsLoadBalancer.SecondExecuteFinishes | functions/bins/lb-delete-aws/src/main.rs:249-260 | after the target groups are deleted none tagged for the Service is left |
| AwsLoadBalancer.DeleteGroups | functions/bins/lb-delete-aws/src/main.rs:249-259 | the groups are deleted in order up to the first that fails |
| AwsLoadBalancer.RerunFinishes | functions/bins/lb-delete-aws/src/main.rs:249-259 | after a deletion that stopped half way, the next execute finds only the other groups, may delete them, and then leaves none |
| AwsLoadBalancer.TagsOf | functions/bins/lb-delete-aws/src/main.rs:317-344 | the tags of all resources are read, in as few batches of at most twenty as it takes |

## Left out

- Cloud SDKs, HTTP and Lambda servers, credentials, JSON and request decoding, environment variables and logging: plumbing around the decisions. Failing reads end an invocation before it changes anything.
- The texts of guards, and the names they mention: only which guards there are and whether they pass.
- RFC 3339 parsing and printing: a condition or timestamp is the instant it holds, and a whole second prints and parses back to itself.
- CEL conditions other than the function's own: carried unchanged and evaluated arbitrarily.
- The checks before an SSH grant (instance, OS Login or login extension, duration) and the list of other access: one-branch checks. `SshOperation.Run` takes their verdict, `AzureAccess.Execute` is what follows them.
- Concurrent SSH grants and revokes for the same member: the two policies can then disagree, and only the per-policy promises hold.
- The health of a second target with the load balancer's name: the function doesn't ask for it.
- `CleanupRuns.ThreeExecutesFinish`: assumes the cloud finishes every deletion before the next execute and frees an address when its rule goes.
- Reading and acting as separate moments in the volume protocol: an execute is one step, so an attach and write between its reads and its deletion is outside the model.
- `VolumeProtocol.NoDataIsLost`: is for a required snapshot; a caller allowed to skip it has none.
- `AzureLoadBalancerRuns.NoUpdateIsOverwritten`, and what follows from it: are for writes whose resource was read with its ETag; the others are unconditional, and `WhenWritesHitWhatWasRead` says what that costs.
- `AzureLoadBalancerRuns.ChangesOnlyWhatIsRemovable`: the health is as reported after the reads and the public IP as read, since neither is part of what the ETag covers.
- `AzureVmDelete.DeletesOnlyWhatIsSafe`: is for VMs that come with their ETags; `WhenDeleteIsSafe` and `WhenDeleteAfterPatchIsSafe` cover those that don't.
- Waiting for backend health with a deadline, and the check of Service names: what is reported in time is an input.
- Cutting a name inside a multi-byte character: names are sequences of characters.
- Lower-casing outside ASCII: names and IDs are lower-cased in ASCII, and which other characters are letters is open.
- Azure grants without a precondition by several callers at once, beyond the creation race: the code promises nothing there.
- The pagination of AWS listings: the target groups found are an input.
- The Azure name of a snapshot: it differs from the GCP one in its length and in also trimming dots.
- Database restore, node pool resize, VM deletion on AWS and GCP, SSH access on AWS and the validators of simple names: guards with one branch each.
