# aws-autorecycle in Dafny

A Dafny model of the core of aws-autorecycle, the AWS Lambda functions that recycle EC2 instances when an Auto Scaling group's launch template changes. The model also proves properties of that core.

The main part is the rolling MongoDB replica-set recycler (`src/mongo_recycler`). It runs once per state-machine tick, and each tick:

1. resolves one target AMI from the component's launch templates;
2. discovers the running instances and joins them with their replica-set roles;
3. checks that they form one replica set;
4. picks the next single action: recycle a stale SECONDARY, or else step down and recycle a stale PRIMARY, or else DONE;
5. executes that action, waiting for the cluster to become healthy again after each change.

The other Lambdas are modelled too:

- the in/out scaling of Auto Scaling groups and its counter state machine;
- the completion monitor;
- the recycle-window delayer;
- the CloudTrail-event parsing and tag decoding that start the state machine;
- the SQS notification builder;
- the Consul node lister and the Consul health check.

How the outside world is modelled:

- **Oracles.** Every external service is an oracle: EC2, Auto Scaling, SSM, Step Functions, SQS, Vault, MongoDB, Sensu and Consul. In the recycler, an oracle is a function of the history of calls made so far, held in the `Env` datatype of `MongoWorld`. A reply can therefore depend on what happened before, such as an instance that terminates some time after it was asked to.
- **Effectful functions without loops** are Dafny functions. They return the calls they make and their outcome, as a `Run`.
- **Source loops** are methods. The polling loop, the sequencing of `execute_action`, the describe and tag loops, the Consul join and the scale loops each append to `World.calls` (or return their calls), and each is proved equal to a specification function.
- **Objects the source mutates in place** are classes:
  - the step event (`StepHandler.Event`);
  - the monitor event (`Monitor.MonitorEvent`);
  - the cached CA certificate (`ConsulNodes.CaCertificate`);
  - the cached Step Functions client (`AsgTags.StepFunctionsClient`).
- **Clocks are parameters.** The current time, the local time stamp and the environment variables are passed in.

One file models one source file (`aws_connector.dfy` models `connectors/aws.py`, and so on). `wrappers.dfy`, `seqs.dfy` and `strs.dfy` hold `Option`/`Result`, sequence filtering and the Python string operations the source uses (`split`, `join`, `strip`, `lower`, `int()`).

Where the repository's documentation and its code disagree, the model follows the code:

- **No chaining toggle, no SecondaryNotHealthy check.** Some tests describe a replica-set chaining toggle and a SecondaryNotHealthy sync-source check. Neither exists in the code, so neither is modelled.
- **A failed Sensu silencing stops the step.** `silence_sensu_alerts` lets RetryError through, so `lambda_handler` raises before `step` runs. It is not best-effort (`StepHandler`).
- **The zone suffix is required, not optional.** For a component with a zone suffix, `describe_asg` requires the `_a`/`_b`/`_c` extension, since the pattern is `(?:_[abc])` with no `?`. The error message nevertheless prints `(_[abc])?` (`ScaleAutoscaling.SuffixedComponentMatchesZones`).
- **Consul over TLS.** The Consul Lambdas build `https://…:8501` hosts. Some tests expect `http` on port 8500.
- **No component gives None.** `get_component_name` returns None for events without detail or request parameters. Some tests expect an exception.
- **Credentials come from Vault.** MongoDB connections authenticate with SCRAM-SHA-1 using Vault credentials. Some tests expect MONGODB-AWS.

## Model

| member | source | states |
|---|---|---|
| MongoWorld.PyIndex | src/mongo_recycler/connectors/mongo.py:41-42 | Python indexing `s[k]`: succeeds exactly for `-len(s) <= k < len(s)`, negative indices count from the end, anything else is IndexError. |
| MongoWorld.Retry | src/mongo_recycler/connectors/mongo.py:58 | tenacity's `@retry(stop=stop_after_attempt(n))`: between 1 and n attempts, all n when it fails; the final result is that of the last attempt (re-raised, or RetryError without `reraise`); a first success makes a single attempt with that attempt's calls. |
| MongoWorld.RetryAllFail | src/mongo_recycler/connectors/mongo.py:58 | Against an attempt that always raises, all n attempts are made, the retry raises, and without `reraise` the error is RetryError. |
| MongoWorld.RetryCoherent | src/mongo_recycler/connectors/mongo.py:58 | The calls before the last attempt are those of the earlier attempts made one after another, each on the history the attempts before it left. |
| MongoWorld.RetryEarlierFailed | src/mongo_recycler/connectors/sensu.py:24-29 | Every attempt before the last raised: tenacity retries only after a failure. |
| MongoWorld.RetrySucceedsAt | src/mongo_recycler/connectors/mongo.py:58 | When the first n attempts raise and attempt n+1 succeeds within the limit, the retry stops there: n+1 attempts, exactly their calls, and that attempt's result. |
| Instances.FindInstances | src/mongo_recycler/models/instances.py:9-10 | `find_instances`: at most the input, every kept instance comes from the input and is in the state asked for, and every input instance in that state is kept. |
| Instances.FindInstancesCounts | src/mongo_recycler/models/instances.py:9-10 | The list comprehension keeps each instance in that state exactly as often as it occurs, and no other. |
| Instances.FindInstancesKeepsOrder | src/mongo_recycler/models/instances.py:9-10 | The kept instances appear in input order. |
| Decisions.ActionName | src/mongo_recycler/models/decision.py:5-7 | The action constants are non-empty and free of spaces and colons. |
| Decisions.ActionNamesDistinct | src/mongo_recycler/models/decision.py:5-7 | Two actions have the same name exactly when they are the same action. |
| Decisions.DecisionConstructors | src/mongo_recycler/models/decision.py:10-19 | `done()` carries DONE and no instance, `recycle_secondary` and `step_down_and_recycle_primary` carry their action and the instance unchanged; decisions built by different constructors differ, and the same constructor gives equal decisions exactly for equal instances. |
| MongoConnector.StateStringFromStatus | src/mongo_recycler/connectors/mongo.py:28-44 | A missing `myState` raises InstanceStateNotFound; otherwise the state name is `states[myState]`, with Python's negative indexing, and an out-of-range code raises IndexError. |
| MongoConnector.StateCodes | src/mongo_recycler/connectors/mongo.py:29-40 | Codes 1, 2 and 6 are PRIMARY, SECONDARY and ARBITER, and the ten state names are distinct. |
| MongoConnector.NodeDetailsOf | src/mongo_recycler/connectors/mongo.py:47-51 | `ok != 1` raises MongoRequestFailed; otherwise the details succeed exactly when the state lookup does, fail with its error, and carry the state name and the `set` field. |
| MongoConnector.StripMongoSuffix | src/mongo_recycler/connectors/mongo.py:56 | `re.sub(r"_mongo(?:_[abc])?$", "", component)`: the result is a prefix of the component, what was removed is one of `_mongo`, `_mongo_a`, `_mongo_b`, `_mongo_c`, and nothing is removed exactly when the component ends in none of them. |
| MongoConnector.StripMongoSuffixOf | src/mongo_recycler/connectors/mongo.py:56 | A base name followed by one of the suffixes is stripped back to the base. |
| MongoConnector.NewMongo | src/mongo_recycler/connectors/mongo.py:55-56 | `Mongo(component)` keeps the component with its mongo suffix stripped as the cluster name. |
| MongoConnector.RolePath | src/mongo_recycler/connectors/mongo.py:80 | The Vault role path is `database/creds/autorecycle_` followed by the cluster name. |
| MongoConnector.ConnectAttempt | src/mongo_recycler/connectors/mongo.py:59-76 | One connection attempt fetches credentials for the role path first, then opens a client on the connection string, then runs `replSetGetStatus`; it succeeds only after all three calls. |
| MongoConnector.ConnectRetried | src/mongo_recycler/connectors/mongo.py:58-76 | `_connect` makes at most 10 attempts; when it fails it made all 10 and re-raises the last attempt's error; a first attempt that succeeds is the only one. |
| MongoConnector.ConnectGivesUp | src/mongo_recycler/connectors/mongo.py:58 | When every attempt fails, `_connect` makes exactly 10 attempts and raises. |
| MongoConnector.Connect | src/mongo_recycler/connectors/mongo.py:58-76 | `_connect` as a specification: the calls and outcome of the retried connection; its properties are those of ConnectRetried and ConnectGivesUp. |
| MongoConnector.ReplicaSetStatus | src/mongo_recycler/connectors/mongo.py:86-88 | A failed connection is passed on with its calls and error; otherwise one more call runs `replSetGetStatus` on the connection, and the status is exactly that command's reply; the status succeeds only after a connection that succeeded. |
| MongoConnector.GetNodeDetails | src/mongo_recycler/connectors/mongo.py:94-99 | `get_node_details` makes the calls of the status request and returns `node_details` of the status, or the status request's error. |
| MongoConnector.StepDown | src/mongo_recycler/connectors/mongo.py:101-106 | A failed connection is passed on; otherwise `replSetStepDown` with 100 seconds is sent, and the step-down raises exactly when that command raised something other than AutoReconnect, with that error. |
| InstancesProcess.FetchFrom | src/mongo_recycler/process/instances.py:4-13 | The generator over the listed instances: on success nothing failed, there is one Instance per record, each copying the record's id, image and address; a failure of the listing surfaces as a failure of the generator. |
| InstancesProcess.FetchFromDetails | src/mongo_recycler/process/instances.py:6-12 | On success each Instance carries the node state and replica-set name that `get_node_details` returned for its address, on the history of the calls before it. |
| InstancesProcess.FetchFromCons | src/mongo_recycler/process/instances.py:5-13 | The first instance is built from the first record's node details and the rest are fetched on the history after its calls. |
| InstancesProcess.FetchFromFailsLast | src/mongo_recycler/process/instances.py:5 | When the instance listing fails after its records (no network interface found), the generator raises that error after yielding the earlier instances. |
| InstancesProcess.FetchReplicaSetStatus | src/mongo_recycler/process/instances.py:4-13 | `fetch_replica_set_status` first lists the instances; a failed listing fails with that error; otherwise the node-details calls follow and the result is theirs. |
| InstancesProcess.FetchReplicaSetStatusJoins | src/mongo_recycler/process/instances.py:4-13 | A successful status has one Instance per listed record, copying the record and carrying that node's details. |
| Polling.FailsWith | src/mongo_recycler/utils/poll.py:8-12 | `fails_with(fn)` is None exactly when the call returned, and otherwise the exception it raised. |
| Polling.PollFrom | src/mongo_recycler/utils/poll.py:15-29 | `poll` from its i-th attempt: between one attempt and the remaining budget; the outcome is the last attempt's error; it raises only after using the whole budget; it never sleeps after the last attempt. |
| Polling.PollFromCalls | src/mongo_recycler/utils/poll.py:16-29 | The calls `poll` made are each attempt's calls followed by its sleep, in attempt order. |
| Polling.PollStepCalls | src/mongo_recycler/utils/poll.py:17-29 | A failed attempt with budget left contributes its calls and its sleep ahead of the later attempts' calls. |
| Polling.PollFromEarlierFailed | src/mongo_recycler/utils/poll.py:17-29 | Every attempt except the last failed, and `poll` slept after each of them exactly when `sleep_for_seconds` is truthy. |
| Polling.PollFromCoherent | src/mongo_recycler/utils/poll.py:16-29 | Each attempt is the probe run on the history the previous attempts and sleeps left behind. |
| Polling.PollStepCoherent | src/mongo_recycler/utils/poll.py:17-29 | After a failed attempt with budget left, the next attempt runs on the history extended by that attempt's calls and sleep. |
| Polling.PollGivesUp | src/mongo_recycler/utils/poll.py:24-26 | When `poll` raises, it made max(max_iters, 1) attempts, all of them failed, and it raises the last attempt's error. |
| Polling.PollRun | src/mongo_recycler/utils/poll.py:15-29 | `poll(fn, max_iters, sleep_for_seconds)` as a specification: PollFrom from the first attempt; the lemmas PollGivesUp, PollFirstSuccess, PollSucceedsAt and PollSleeps state what it does. |
| Polling.PollFirstSuccess | src/mongo_recycler/utils/poll.py:17-20 | A probe that succeeds at once is called exactly once, and `poll` returns without sleeping. |
| Polling.PollSucceedsAt | src/mongo_recycler/utils/poll.py:17-26 | When the n-th attempt succeeds and n is within the budget, `poll` makes exactly n attempts and returns normally. |
| Polling.PollAlwaysFailing | src/mongo_recycler/utils/poll.py:15-29 | Against a probe that always raises, `poll` uses the whole budget and raises. |
| Polling.PollSleeps | src/mongo_recycler/utils/poll.py:28-29 | `poll` sleeps once per attempt except the last when `sleep_for_seconds` is truthy, and never otherwise. |
| Polling.PollWithin | src/mongo_recycler/utils/poll.py:15-29 | `poll` makes no calls other than the probe's calls and its sleeps. |
| Polling.Poll | src/mongo_recycler/utils/poll.py:15-29 | The loop appends to the world exactly the calls of `poll`'s specification and returns its error. |
| Polling.RunUntilFrom | src/mongo_recycler/utils/poll.py:32-35 | `run_until`: calls fn at most max(max_iters, 0) times; an exception from fn propagates at once and ends the loop; the first sentinel ends the loop; when neither happens the loop makes all max_iters calls. |
| Polling.RunUntilNeverSentinel | src/mongo_recycler/utils/poll.py:33-35 | A function that never raises and never returns the sentinel is called exactly max(max_iters, 0) times, and `run_until` returns normally. |
| Polling.RunUntilStep | src/mongo_recycler/utils/poll.py:33-35 | A call that returns a value other than the sentinel, with iterations left, is followed by the rest of the loop on the history it left behind. |
| Polling.RunUntil | src/mongo_recycler/utils/poll.py:32-35 | The loop appends to the world exactly the calls of `run_until`'s specification and returns its error. |
| DecisionProcess.ChooseColour | src/mongo_recycler/process/decision.py:14-20 | Red exactly for a candidate, faint exactly for a state outside PRIMARY/SECONDARY, green exactly for a PRIMARY or SECONDARY already on the target image. |
| DecisionProcess.InstanceToStringFields | src/mongo_recycler/process/decision.py:39-40 | The line `id \| state \| ip \| image` splits at its `\|` separators back into the four fields, each padded by the single spaces of the format. |
| DecisionProcess.ReportClusterStatus | src/mongo_recycler/process/decision.py:23-24 | One line per instance, in order, each the instance's text painted in its colour. |
| DecisionProcess.ReportOutcome | src/mongo_recycler/process/decision.py:27-36 | DONE is bold green `DONE`; the other actions print `ACTION : instance_id`, bold yellow for a step-down and yellow for a recycle; a non-DONE decision without an instance raises AttributeError. |
| DecisionProcess.ReportOutcomeReadsBack | src/mongo_recycler/process/decision.py:28-29 | The outcome text names the action before its first ` : ` and the instance id after it. |
| DecisionProcess.FindCandidates | src/mongo_recycler/process/decision.py:46-51 | `find_candidates`: only input instances in state PRIMARY or SECONDARY and not on the target image, and every such instance. |
| DecisionProcess.FindCandidatesExact | src/mongo_recycler/process/decision.py:46-51 | Each candidate is kept as often as it occurs, non-candidates never, in input order. |
| DecisionProcess.StaleInFilter | src/mongo_recycler/process/decision.py:55-57 | Filtering the candidates by state is filtering the input by "candidate in that state". |
| DecisionProcess.DecideOnAction | src/mongo_recycler/process/decision.py:54-64 | RECYCLE_SECONDARY exactly when some SECONDARY is off the target image; STEP_DOWN_AND_RECYCLE_PRIMARY exactly when there is none but some PRIMARY is off it; DONE carries no instance, the others do. |
| DecisionProcess.DecideDone | src/mongo_recycler/process/decision.py:54-64 | DONE exactly when no instance is a candidate. |
| DecisionProcess.DecideChoosesFirst | src/mongo_recycler/process/decision.py:59-62 | The recycled SECONDARY, or else the stepped-down PRIMARY, is the first such stale instance in input order, and it is a candidate from the input. |
| DecisionProcess.DecideIgnoresNonCandidates | src/mongo_recycler/process/decision.py:54-64 | Deciding on the candidates alone gives the same decision as on the whole status. |
| DecisionProcess.SecondariesFirst | src/mongo_recycler/process/decision.py:59-62 | One stale SECONDARY is enough to rule out stepping down the primary. |
| DecisionProcess.ScenarioSecondary | src/mongo_recycler/process/decision.py:54-60 | With a stale PRIMARY, an up-to-date SECONDARY, a stale SECONDARY and an ARBITER, the stale SECONDARY is recycled. |
| DecisionProcess.ScenarioPrimary | src/mongo_recycler/process/decision.py:54-62 | When every SECONDARY is on the target image, the stale PRIMARY is stepped down and recycled. |
| AwsConnector.StripAzSuffix | src/mongo_recycler/connectors/aws.py:27 | `re.sub(r"_[abc]$", "", component)`: a prefix of the component, with at most one of `_a`, `_b`, `_c` removed, and nothing removed exactly when it ends in none of them. |
| AwsConnector.CreateInstanceNameFilters | src/mongo_recycler/connectors/aws.py:26-28 | One `tag:Name` filter whose values are the component without its zone suffix followed by `_a`, `_b` and `_c`. |
| AwsConnector.NameFiltersIgnoreAz | src/mongo_recycler/connectors/aws.py:26-28 | The components of every zone of a cluster ask for the same three names. |
| AwsConnector.IpAddressOf | src/mongo_recycler/connectors/aws.py:32-40 | The address of the first network interface not deleted on termination; NoENIFound naming the instance exactly when every interface is deleted on termination. |
| AwsConnector.DescribeFromRunning | src/mongo_recycler/connectors/aws.py:42-49 | The records describe the running instances one by one, in order, up to the first running instance without a retained interface, whose NoENIFound ends the generator. |
| AwsConnector.DescribeCons | src/mongo_recycler/connectors/aws.py:43-49 | A running instance with an address puts its record in front of the description of the rest. |
| AwsConnector.FilterRunningCons | src/mongo_recycler/connectors/aws.py:44 | A running first instance is the first of the running instances. |
| AwsConnector.DescribeFromCons | src/mongo_recycler/connectors/aws.py:44-49 | A running first instance with an address yields the record of its id, image and address before the others. |
| AwsConnector.DescribeFrom | src/mongo_recycler/connectors/aws.py:42-49 | The generator of `describe_mongodb_instances` over one list of instances, consumed to the end; DescribeFromRunning and DescribeFromCons state which records it yields and where it stops. |
| AwsConnector.ConsDescribes | src/mongo_recycler/connectors/aws.py:45-49 | Prepending the record of a running instance keeps the description faithful to the running instances. |
| AwsConnector.DescribeMongodbInstances | src/mongo_recycler/connectors/aws.py:31-49 | `describe_mongodb_instances` describes, in order, the running instances of all reservations, rendering each record's id, image and address, and stops with NoENIFound at the first running instance without an address. |
| AwsConnector.DescribeAllRunning | src/mongo_recycler/connectors/aws.py:31-49 | When every running instance has a retained interface, nothing fails and there is one record per running instance. |
| AwsConnector.InstanceState | src/mongo_recycler/connectors/aws.py:52-63 | Succeeds exactly with one reservation of one instance, returning its state name; no reservation or no instance raises NoInstancesFound, several reservations TooManyReservationsFound, several instances TooManyInstancesFound. |
| AwsConnector.AssertTerminated | src/mongo_recycler/connectors/aws.py:66-70 | True exactly for `terminated`; any other state raises AssertionError naming the state. |
| AwsConnector.ImageIdsFrom | src/mongo_recycler/connectors/aws.py:85-96 | At most one lookup per template; on success exactly one lookup and one image id per template; no templates means no call and no id. |
| AwsConnector.ImageIdsCalls | src/mongo_recycler/connectors/aws.py:86-89 | The k-th `describe_launch_template_versions` call names the k-th template's id and its latest version number as a string. |
| AwsConnector.ImageIdAt | src/mongo_recycler/connectors/aws.py:85-96 | On success the k-th image id is the first image id of the reply to the k-th lookup, which is a non-empty success. |
| AwsConnector.ImageIdsFailed | src/mongo_recycler/connectors/aws.py:85-91 | On failure the last lookup made is the failing one: its error propagates, or its reply is empty and indexing it raises IndexError. |
| AwsConnector.ImageIdsAskLatestVersion | src/mongo_recycler/connectors/aws.py:88 | The k-th lookup is that of the k-th template, and the version asked for reads back as its latest version number. |
| AwsConnector.GetLaunchTemplateImageIds | src/mongo_recycler/connectors/aws.py:78-96 | First `describe_launch_templates` for the component followed by `*`; a failure there is raised; otherwise the per-template calls follow and give the result. |
| AwsConnector.GetInstanceState | src/mongo_recycler/connectors/aws.py:98-100 | One `describe_instances` by id; the reply's failure is raised, otherwise `instance_state` of the reservations. |
| AwsConnector.GetMongoDbInstances | src/mongo_recycler/connectors/aws.py:102-105 | One `describe_instances` with the name filters; the reply's failure is raised, otherwise its description. |
| AwsConnector.IsTerminated | src/mongo_recycler/connectors/aws.py:122-123 | The probe makes the state request's calls and succeeds exactly when the state is `terminated`. |
| AwsConnector.RecycleRun | src/mongo_recycler/connectors/aws.py:107-126 | `recycle_instance` starts by looking the instance up by id. |
| AwsConnector.RecycleLookupFails | src/mongo_recycler/connectors/aws.py:110-118 | A lookup that fails or that does not find exactly one instance ends the recycle after that call: a ClientError becomes NoInstancesFound, several instances TooManyInstancesFound, none IndexError. |
| AwsConnector.RecycleTerminatesAndWaits | src/mongo_recycler/connectors/aws.py:118-126 | After finding one instance it is terminated; a failed termination is raised; otherwise `poll` checks every 10 seconds, up to 50 times, that the instance is terminated, and its outcome is the recycle's. |
| AwsConnector.RecycleTerminatesOnce | src/mongo_recycler/connectors/aws.py:107-126 | The only terminate call is the second call, and it terminates the single instance the lookup found. |
| AwsConnector.RecycleInstance | src/mongo_recycler/connectors/aws.py:107-126 | The method appends exactly the calls of `recycle_instance`'s specification and returns its error. |
| ReplicaSetHealthProcess.Primaries | src/mongo_recycler/process/replica_set_health.py:16 | The comprehension keeps only members whose `stateStr` is `PRIMARY`. |
| ReplicaSetHealthProcess.AssertOnePrimaryNode | src/mongo_recycler/process/replica_set_health.py:15-18 | Passes exactly when one member is PRIMARY; otherwise PrimaryError carrying the number of primaries found, which is not 1. |
| ReplicaSetHealthProcess.AssertAllNodesHealthy | src/mongo_recycler/process/replica_set_health.py:21-25 | The loop raises only NodeNotHealthy. |
| ReplicaSetHealthProcess.AllNodesHealthyScan | src/mongo_recycler/process/replica_set_health.py:12-25 | Passes exactly when every member is PRIMARY, SECONDARY or ARBITER; a failure names the first member that is not, with its state. |
| ReplicaSetHealthProcess.AssertReplicaSetHealthy | src/mongo_recycler/process/replica_set_health.py:28-31 | Fails only with NodeNotHealthy or PrimaryError. |
| ReplicaSetHealthProcess.ReplicaSetHealthyIff | src/mongo_recycler/process/replica_set_health.py:28-31 | Healthy exactly when every member is in a healthy state and there is exactly one primary. |
| ReplicaSetHealthProcess.UnhealthyReportedFirst | src/mongo_recycler/process/replica_set_health.py:30-31 | With an unhealthy member the health check is checked first: the outcome is NodeNotHealthy for the first unhealthy member, whatever the primaries. |
| ReplicaSetHealthProcess.IpAddresses | src/mongo_recycler/process/replica_set_health.py:41 | One address per instance record, in order. |
| ReplicaSetHealthProcess.HostListsAddresses | src/mongo_recycler/process/replica_set_health.py:41 | The comma-joined host splits back into the instances' addresses, none of which holds a comma. |
| ReplicaSetHealthProcess.HostOf | src/mongo_recycler/process/replica_set_health.py:41 | The connection string of `assert_healthy`: the discovered addresses joined by `,`; HostListsAddresses states that it splits back into them. |
| ReplicaSetHealthProcess.AssertHealthy | src/mongo_recycler/process/replica_set_health.py:39-44 | `assert_healthy` begins by looking up the cluster's instances by their name filters. |
| ReplicaSetHealthProcess.AssertHealthyPasses | src/mongo_recycler/process/replica_set_health.py:39-44 | A passing check found the instances, read the replica set status from the joined addresses, and that status has every member healthy and exactly one primary. |
| ReplicaSetHealthProcess.AssertHealthyStopsAtDiscovery | src/mongo_recycler/process/replica_set_health.py:40 | A failed instance lookup ends the check with that lookup's error, before Mongo is asked. |
| ReplicaSetHealthProcess.AssertHealthyAsksAllNodes | src/mongo_recycler/process/replica_set_health.py:40-44 | After a successful lookup Mongo is asked for the status of the joined host, and the outcome is that request's error or the verdict on its status. |
| ReplicaSetHealthProcess.WaitGivesUp | src/mongo_recycler/process/replica_set_health.py:46-47 | `wait_until_cluster_healthy` gives up only after 60 failed checks with 59 pauses between them, raising the last check's error. |
| ReplicaSetHealthProcess.WaitEndsHealthy | src/mongo_recycler/process/replica_set_health.py:46-47 | A wait that succeeds made at most 60 checks and the last one passed. |
| ReplicaSetHealthProcess.WaitUntilClusterHealthy | src/mongo_recycler/process/replica_set_health.py:46-47 | The method appends exactly the calls of the polled health check and returns its error. |
| ReplicaSetHealthProcess.WaitRun | src/mongo_recycler/process/replica_set_health.py:46-47 | `wait_until_cluster_healthy()` as a specification: `poll` of the health check, 60 attempts 10 seconds apart; WaitGivesUp and WaitEndsHealthy state what it does, and WaitUntilClusterHealthy is proved equal to it. |
| PreStepChecks.AssertAmisMatchAndGetAmi | src/mongo_recycler/process/pre_step_checks.py:21-30 | No image ids raises NoLaunchTemplatesFound naming the component; ids that differ raise LaunchTemplateAmiMismatch; otherwise the common id, which every entry equals. |
| PreStepChecks.AmiDependsOnSetOnly | src/mongo_recycler/process/pre_step_checks.py:25-30 | The outcome depends only on the set of ids, not on their order or repetition. |
| PreStepChecks.GetAmiAndCheckAllAmisMatch | src/mongo_recycler/process/pre_step_checks.py:17-18 | Makes exactly the launch template calls; their error is raised, otherwise the check above decides. |
| PreStepChecks.ReplicaSetNames | src/mongo_recycler/process/pre_step_checks.py:34 | The replica set name of each instance, in order. |
| PreStepChecks.AssertAllNodesInSameReplicaSet | src/mongo_recycler/process/pre_step_checks.py:33-36 | Passes exactly when there is at least one instance and all share the first one's replica set name; otherwise MongoReplicaSetMismatch. |
| Execution.Plan | src/mongo_recycler/process/execute.py:11-26 | DONE does nothing; any other action without an instance is AttributeError; a step-down primary is stepped down, waited for, recycled and waited for; a secondary is recycled and waited for; every change to the cluster is followed by a wait. |
| Execution.RunSteps | src/mongo_recycler/process/execute.py:11-26 | Running phases in order stops at the first raising phase: at most all phases ran, all of them when none raised, at least one when one did. |
| Execution.RunStepsRaised | src/mongo_recycler/process/execute.py:11-26 | The run fails exactly when some phase raises, and then the last phase run is the one that raised. |
| Execution.RunStepsStop | src/mongo_recycler/process/execute.py:11-26 | A failed run ran between one and all phases, and the last one it ran raised. |
| Execution.RunStepsAppend | src/mongo_recycler/process/execute.py:11-26 | Running two lists in sequence: a failure in the first ends everything there; otherwise the second runs on the history the first left, and calls, counts and error combine. |
| Execution.RunStepsSnoc | src/mongo_recycler/process/execute.py:11-26 | One more phase after a clean run adds exactly that phase's calls and its error. |
| Execution.RunStepsPair | src/mongo_recycler/process/execute.py:15-26 | Two phases in a row: a raising first phase ends the run with its calls and error; otherwise the second runs on the history the first left, and the run has both phases' calls and the second's error. |
| Execution.ExecuteRun | src/mongo_recycler/process/execute.py:11-26 | `execute_action` is DONE doing nothing, AttributeError without an instance, and otherwise the plan's phases run in order. |
| Execution.ExecuteCompletes | src/mongo_recycler/process/execute.py:11-26 | A run without error carried out every phase of the plan and none raised. |
| Execution.StepDownFailureStops | src/mongo_recycler/process/execute.py:15-17 | A failed step-down ends `execute_action` after its own calls, with its error, before any wait or recycle. |
| Execution.RecycleFailureStops | src/mongo_recycler/process/execute.py:22-23 | A failed recycle of a secondary ends `execute_action` with that error and no wait. |
| Execution.RunPhase | src/mongo_recycler/process/execute.py:15-26 | One phase as a method: the calls of the step down, recycle or wait it stands for are appended and its error returned. |
| Execution.PhaseRun | src/mongo_recycler/process/execute.py:15-26 | One sub-step of `execute_action` as a specification: `mongo.step_down(ip)`, `aws.recycle_instance(instance)` or `wait_until_cluster_healthy()`, with its calls and error; RunSteps, StepDownFailureStops and RecycleFailureStops state what the phases do in turn, and RunPhase is proved equal to it through Stepper. |
| Execution.RunPair | src/mongo_recycler/process/execute.py:15-26 | Two phases in sequence as a method, stopping at the first error, with the calls of the specification. |
| Execution.ExecuteAction | src/mongo_recycler/process/execute.py:11-26 | The method appends exactly the calls of `execute_action`'s specification and returns its error. |
| SensuConnector.CheckTypeName | src/mongo_recycler/connectors/sensu.py:11-12 | The check types are the non-empty words `warning` and `critical`. |
| SensuConnector.FinalCheckName | src/mongo_recycler/connectors/sensu.py:16-17 | The name is `infra_check_mongo_replica_set_health_`, the component without its `_mongo` suffix, `_`, the check type and `_aggregates`. |
| SensuConnector.CheckNameOfCluster | src/mongo_recycler/connectors/sensu.py:16-17 | The components `<cluster>_mongo` and `<cluster>_mongo_a/_b/_c` all name the checks of `<cluster>`. |
| SensuConnector.CheckNamesDiffer | src/mongo_recycler/connectors/sensu.py:11-17 | The warning and critical checks of a component have different names. |
| SensuConnector.Outcome | src/mongo_recycler/connectors/sensu.py:34-39 | A truthy response (status below 400) is returned and logged, as info for 201 and as a warning otherwise; a falsy one returns None and logs nothing. |
| SensuConnector.PostToSensu | src/mongo_recycler/connectors/sensu.py:24-39 | Between one and eight attempts; giving up takes all eight and raises RetryError, as `reraise=False` makes it. |
| SensuConnector.PostAttempt | src/mongo_recycler/connectors/sensu.py:30-39 | One attempt of `_post_to_sensu`: a single POST of the check name and expiry, whose answer gives the outcome and whose exception fails the attempt; PostsOnlyPayload, PostGivesUp and PostAnswered state what the retried posts do. |
| SensuConnector.PostsOnlyPayload | src/mongo_recycler/connectors/sensu.py:19-33 | Every attempt posts the same payload of check name and expiry, one post per attempt. |
| SensuConnector.PostGivesUp | src/mongo_recycler/connectors/sensu.py:24-33 | When every post raises, eight posts are made and the result is RetryError. |
| SensuConnector.PostAnswered | src/mongo_recycler/connectors/sensu.py:30-39 | A post that is answered ends the retry after one attempt with that response's outcome. |
| SensuConnector.SilenceAlertType | src/mongo_recycler/connectors/sensu.py:15-21 | Silencing one check type posts for its final check name with the given duration. |
| SensuConnector.SilenceSensuAlerts | src/mongo_recycler/connectors/sensu.py:10-12 | The warning check is silenced first; if that raises, nothing else is posted; otherwise the critical check follows and its failure is the result's. |
| SensuConnector.WarningBeforeCritical | src/mongo_recycler/connectors/sensu.py:10-12 | All warning posts come before all critical posts. |
| SensuConnector.TwoPosts | src/mongo_recycler/connectors/sensu.py:10-12 | When both posts are answered, exactly two posts are made, warning then critical, and the silencing succeeds. |
| StepProcess.Discover | src/mongo_recycler/process/step.py:19-28 | The AMI check runs first and its error ends the step; otherwise the replica set status is fetched; a success has the common AMI and instances all in one replica set. |
| StepProcess.DiscoverStartsWithTemplates | src/mongo_recycler/process/step.py:24 | The first call of a step lists the launch templates of `<component>*`. |
| StepProcess.ReportNeverRaises | src/mongo_recycler/process/step.py:31-33 | The report of any decision is rendered without error. |
| StepProcess.StepReturnsDecision | src/mongo_recycler/process/step.py:19-36 | A successful step returns `decide_on_action` on the discovered instances and AMI, after executing it without error. |
| StepProcess.ChecksGuardExecution | src/mongo_recycler/process/step.py:24-28 | When a pre-step check or the status fetch fails, the step raises that error and executes nothing. |
| StepProcess.DoneChangesNothing | src/mongo_recycler/process/step.py:31-36 | A DONE decision adds no call after discovery and is returned. |
| StepProcess.StepRecyclesStaleMember | src/mongo_recycler/process/step.py:31-36 | A decision other than DONE names a discovered instance that is a candidate for the target AMI. |
| StepProcess.Step | src/mongo_recycler/process/step.py:19-36 | The method appends exactly the calls of `step`'s specification and returns its outcome. |
| StepProcess.StepRun | src/mongo_recycler/process/step.py:19-36 | `step(component)` as a specification: discovery, the pre-step checks, the decision and its execution; the lemmas StepReturnsDecision, ChecksGuardExecution, DoneChangesNothing and StepRecyclesStaleMember state what it does. |
| StepHandler.Incremented | src/mongo_recycler/process/step.py:39-43 | A missing counter becomes 1, a number grows by one, and a None counter raises TypeError. |
| StepHandler.IncrementedNotFirst | src/mongo_recycler/process/step.py:39-47 | After incrementing a missing or non-negative counter the next run is not a first run. |
| StepHandler.DoneText | src/mongo_recycler/process/step.py:61-66 | Without a counter the text says nothing was recycled; with one it reports the completed recycling and the count. |
| StepHandler.DoneTextReadsBack | src/mongo_recycler/process/step.py:62-64 | The number in the completion text is the counter. |
| StepHandler.AfterStep | src/mongo_recycler/process/step.py:58-68 | The decision is recorded; on DONE the message content text is set, a missing message content raising KeyError; the counter is then incremented, a None counter raising TypeError and leaving it as it was. |
| StepHandler.DoneNeedsMessageContent | src/mongo_recycler/process/step.py:60-66 | DONE without message content records the decision and raises KeyError for `message_content`. |
| StepHandler.Silencing | src/mongo_recycler/process/step.py:46-55 | Only a first run (no counter, or a falsy one) silences the Sensu alerts, for 900 seconds. |
| StepHandler.LaterRunsDoNotSilence | src/mongo_recycler/process/step.py:54-57 | A later run makes only the step's calls. |
| StepHandler.FirstRunSilences | src/mongo_recycler/process/step.py:54-57 | A first run begins with the silencing calls, warning posts before critical posts. |
| StepHandler.HandlerRun | src/mongo_recycler/process/step.py:50-71 | `lambda_handler(event, context)` as a specification: KeyError without a component, the silencing on a first run, the step and the recorded decision; FirstRunSilences, LaterRunsDoNotSilence, HandlerRecordsStep and StepFailureKeepsEvent state what it does, and LambdaHandler is proved equal to it. |
| StepHandler.StepFailureKeepsEvent | src/mongo_recycler/process/step.py:57 | A step that raises leaves the event as it was and the handler raises. |
| StepHandler.HandlerRecordsStep | src/mongo_recycler/process/step.py:50-70 | A handler run without error had a component and a successful step, and the event is updated from that step's decision. |
| StepHandler.Event.IncrementCounter | src/mongo_recycler/process/step.py:39-43 | Updates the event's counter in place as `Incremented` says and changes nothing else. |
| StepHandler.Event.Record | src/mongo_recycler/process/step.py:58-68 | Updates the event in place as `AfterStep` says. |
| StepHandler.Event.LambdaHandler | src/mongo_recycler/process/step.py:50-70 | The event after `lambda_handler`, the calls made and the error are those of the handler's specification. |
| Delayer.OfDayInDay | src/autorecycle_delayer/aws_autorecycle_delayer_lambda.py:43-62 | A valid time of day falls within one day, so times compare as `datetime.time` values do. |
| Delayer.MakeTime | src/autorecycle_delayer/aws_autorecycle_delayer_lambda.py:19 | `datetime.time(h, m, s)` succeeds exactly for an hour below 24 and a minute and second below 60, with no microseconds; anything else is ValueError. |
| Delayer.StrToTime | src/autorecycle_delayer/aws_autorecycle_delayer_lambda.py:13-21 | Succeeds exactly when the text splits on `:` into three integers that make a valid time; every failure is ValueError. |
| Delayer.StrToTimeText | src/autorecycle_delayer/aws_autorecycle_delayer_lambda.py:13-21 | Reading `H:M:S` written from a valid time gives that time back. |
| Delayer.TimeTextSplits | src/autorecycle_delayer/aws_autorecycle_delayer_lambda.py:15 | `H:M:S` written from a time splits on `:` into exactly its three parts. |
| Delayer.Decide | src/autorecycle_delayer/aws_autorecycle_delayer_lambda.py:43-62 | `time_wait` is set exactly when `wait` is, and it names the window's start. |
| Delayer.DecideWaitsOutsideWindow | src/autorecycle_delayer/aws_autorecycle_delayer_lambda.py:43-62 | It waits exactly when now is outside the window (a window with start after end wraps over midnight; start equal to end never waits); the wait is for today's start when now is before it and otherwise for tomorrow's, always in the future. |
| Delayer.LambdaHandler | src/autorecycle_delayer/aws_autorecycle_delayer_lambda.py:24-73 | No component is KeyError; no `recycle_window` never waits; with a window, the handler succeeds exactly when the window splits on `,` into at least two parts whose first two are valid times; a window without a comma raises ValueError when its only time is invalid and IndexError otherwise; two parts fail only with ValueError; `time_wait` accompanies exactly a wait. |
| Delayer.HandlerUsesWindow | src/autorecycle_delayer/aws_autorecycle_delayer_lambda.py:37-62 | A handled window is two valid times before and after its first comma, and the handler waits exactly when now is outside them. |
| SqsNotifier.Output | src/autorecycle/autorecycle_lambda.py:12-44 | Success notifies the given channel with the initiated text in green; failure notifies `team-infra-alerts` with the failed text in red; the bold component, the username, the emoji and the component and environment fields are always present. |
| SqsNotifier.OutputNamesComponent | src/autorecycle/autorecycle_lambda.py:38 | The text is the component between asterisks. |
| SqsNotifier.QueueUrl | src/autorecycle/autorecycle_lambda.py:51 | The queue URL is the SQS endpoint, the account id and `recycle-<component>`. |
| SqsNotifier.SendToSqs | src/autorecycle/autorecycle_lambda.py:47-65 | One message to the component's queue, with the component and account id as attributes and `Recycle <component>` as body. |
| SqsNotifier.SendReportsOutcome | src/autorecycle/autorecycle_lambda.py:67-82 | The notification reports success exactly when the reply has a MessageId, and then goes to the given channel; a reply without one, a ClientError or any other exception reports failure to `team-infra-alerts`. |
| SqsNotifier.LambdaHandler | src/autorecycle/autorecycle_lambda.py:85-90 | A missing `component`, `account_id` or `success_channel` is a KeyError for that key, checked in that order; the handler succeeds exactly when all three are present, and then sends the message. |
| ConsulNodes.CaCertificate.constructor | src/get_consul_nodes/main.py:18-20 | A new certificate has no cached path and the given ARN. |
| ConsulNodes.CaCertificate.CertPath | src/get_consul_nodes/main.py:22-49 | With a cached path or no ARN nothing is asked and the cache stays as it is; otherwise SSM is asked once for the ARN, and its content's temporary file is cached and returned, or its error raised with nothing cached. |
| ConsulNodes.ConsulHost | src/get_consul_nodes/main.py:57-64 | `https://consul-<cluster>.<environment>.mdtp:8501` for a given cluster, and `https://consul-<environment>.<environment>.mdtp:8501` without one; a missing environment prints as `None`. |
| ConsulNodes.LeaderAddress | src/get_consul_nodes/main.py:85 | The leader is the part of the stripped answer before its first colon, so it holds no colon. |
| ConsulNodes.LeaderOfQuotedAnswer | src/get_consul_nodes/main.py:85 | The answer `"<address>:<port>"` gives the address. |
| ConsulNodes.StripQuotes | src/get_consul_nodes/main.py:85 | `.strip('"')` removes exactly the surrounding quotes from a quoted text. |
| ConsulNodes.LeaderLastSorts | src/get_consul_nodes/main.py:92-94 | Sorting by "is the leader" keeps every member, puts the leader's entries last, and keeps each group in its original order. |
| ConsulNodes.LeaderLastPermutes | src/get_consul_nodes/main.py:92 | The sorted list is a permutation of the members. |
| ConsulNodes.LeaderLastOrders | src/get_consul_nodes/main.py:92 | No other member follows a leader entry. |
| ConsulNodes.LeaderLastStable | src/get_consul_nodes/main.py:92 | The sort is stable within both groups. |
| ConsulNodes.LeaderLast | src/get_consul_nodes/main.py:92 | `sorted(members, key=lambda m: m["Addr"] == leader)` as a specification: the other members, then the leader's entries; LeaderLastSorts, LeaderLastPermutes, LeaderLastOrders and LeaderLastStable state its properties. |
| ConsulNodes.Addresses | src/get_consul_nodes/main.py:92-94 | Every member's `Addr` in order, or KeyError `'Addr'` when some member has none. |
| ConsulNodes.FoldAppend | src/get_consul_nodes/main.py:101-106 | Recording the interfaces of two lists in turn is recording them one after the other. |
| ConsulNodes.FoldKeys | src/get_consul_nodes/main.py:101-106 | The map holds exactly the addresses of the list that some interface carries. |
| ConsulNodes.FoldKeepsLast | src/get_consul_nodes/main.py:101-106 | Each address maps to the instance of the last interface carrying it, as repeated assignment leaves it. |
| ConsulNodes.BuildInstanceMap | src/get_consul_nodes/main.py:97-106 | The three nested loops build exactly the map of the fold over all reservations, instances and interfaces. |
| ConsulNodes.NodeList | src/get_consul_nodes/main.py:108 | At most one node per entry of the address list (a repeated address gives a node each time), each an address of the map with its instance. |
| ConsulNodes.NodeListOrder | src/get_consul_nodes/main.py:108 | The nodes' addresses are the list's addresses that the map holds, in list order. |
| ConsulNodes.Nodes | src/get_consul_nodes/main.py:82-111 | Every failure is wrapped as `Get Consul Nodes Failed: …`. |
| ConsulNodes.NodesOrdered | src/get_consul_nodes/main.py:82-108 | A success read the leader and the members; EC2 is asked, with the sorted addresses, exactly when there are members; the nodes are the sorted addresses EC2 knows, in order. |
| ConsulNodes.FetchNodes | src/get_consul_nodes/main.py:82-111 | The method's calls and result are those of `Nodes`. |
| ConsulNodes.LambdaHandler | src/get_consul_nodes/main.py:67-111 | The certificate is fetched first when needed, its failure ending the handler; then the nodes are fetched from the event's host. |
| ConsulHealth.Check | src/check_consul_health/main.py:83-102 | Every failure is wrapped as `Cluster health check failed: …`; success is status 200, and happens only after both Consul answers and with exactly the expected number of peers. |
| ConsulHealth.CheckHealthyIff | src/check_consul_health/main.py:85-94 | Healthy exactly when the stripped leader answer is non-empty and the number of peers is the expected one; the peers are asked exactly when there is a leader. |
| ConsulHealth.CheckReportsLeader | src/check_consul_health/main.py:96-99 | The healthy body names the leader and the expected number of peers. |
| ConsulHealth.CheckCluster | src/check_consul_health/main.py:83-102 | The method's calls and result are those of `Check`. |
| ConsulHealth.LambdaHandler | src/check_consul_health/main.py:76-102 | The certificate is fetched first when needed; the check uses the event's host and its `expectedPeers`, 3 by default. |
| ComponentDetails.ComponentOf | src/autorecycle_invoke_stepfunctions/get_component_details.py:36 | `name.split("-asg-")[0]`: a prefix of the name that is either the whole name or followed by `-asg-`, with no `-asg-` starting before its end, so the cut is at the first `-asg-`. |
| ComponentDetails.ComponentOfAsgName | src/autorecycle_invoke_stepfunctions/get_component_details.py:36 | The group name `<component>-asg-<suffix>` gives back the component exactly when `-asg-` does not occur in `<component>-asg`, that is when no `-asg-` starts inside the component; so a hyphenated component such as `auth-db` is kept. |
| ComponentDetails.GetComponentName | src/autorecycle_invoke_stepfunctions/get_component_details.py:9-58 | No `detail` or `requestParameters` dictionary gives None. A component is found exactly when: for a tag event, `tags` is present and non-empty, its first entry has a `resourceId`, and that id cut at `-asg-` is non-empty; for any other event, `autoScalingGroupName` is present, it cuts to a non-empty component, and the launch configuration or template changed. The component found is that cut. A tag event without `tags` is None, with an empty `tags` IndexError, and with a first tag lacking `resourceId` KeyError; another event without `autoScalingGroupName` is KeyError; no other exception is raised. |
| ComponentDetails.UnchangedLaunchSkips | src/autorecycle_invoke_stepfunctions/get_component_details.py:51-56 | An update that changes neither the launch configuration nor the launch template gives None. |
| ComponentDetails.AssertRecyclable | src/autorecycle_invoke_stepfunctions/get_component_details.py:61-73 | The missing tags are exactly the required tags absent from the group's tags; the group is recyclable exactly when none is missing and `autorecycle_recycle_on_asg_update` is truthy. |
| ComponentDetails.MissingInOrder | src/autorecycle_invoke_stepfunctions/get_component_details.py:62-63 | Missing tags are listed in the order of the required tags. |
| AsgTags.NamesOfKind | src/autorecycle_invoke_stepfunctions/aws.py:57-60 | A name is selected for a kind exactly when it is declared with that kind. |
| AsgTags.NamesOfKindValues | src/autorecycle_invoke_stepfunctions/aws.py:12-21 | The string tags are, in order, the override name, strategy, monitoring channel, team and step function name; the boolean tags are the recycle flag, the pager flag and the dry-run flag. |
| AsgTags.KindFilter | src/autorecycle_invoke_stepfunctions/aws.py:57-60 | `[k for k, v in names if v == kind]`: every selected name is declared with the kind, and every name declared with it is selected. |
| AsgTags.KindFilterInOrder | src/autorecycle_invoke_stepfunctions/aws.py:57-60 | The selected names keep their declaration order. |
| AsgTags.NamesIn | src/autorecycle_invoke_stepfunctions/aws.py:50 | The names of a declaration list, one per declaration, in order. |
| AsgTags.DeclaredNames | src/autorecycle_invoke_stepfunctions/aws.py:50 | `list(autorecycle_tag_names.keys())`: the k-th name is that of the k-th declaration. |
| AsgTags.TagFilters | src/autorecycle_invoke_stepfunctions/aws.py:48-51 | Two filters: the group by name, and the keys of every declared tag. |
| AsgTags.TagValues | src/autorecycle_invoke_stepfunctions/aws.py:78-80 | The values are exactly those of the answer's tags with that key. |
| AsgTags.TagValuesFirst | src/autorecycle_invoke_stepfunctions/aws.py:78-80 | The first value is that of the first answer tag with that key. |
| AsgTags.AddAllEntries | src/autorecycle_invoke_stepfunctions/aws.py:57-75 | Adding a list of names stores exactly those with a value, each converted from its first value, and leaves other entries alone. |
| AsgTags.AutorecyclingTagsEntries | src/autorecycle_invoke_stepfunctions/aws.py:45-63 | Only declared tags are stored; a string tag present in the answer holds its first value, a boolean tag whether its first value is `true` in any case. |
| AsgTags.AutorecyclingTags | src/autorecycle_invoke_stepfunctions/aws.py:45-63 | `get_autorecycling_tags` as a specification: the string tags added first, then the boolean tags; AutorecyclingTagsEntries states what it holds. |
| AsgTags.KindsDisjoint | src/autorecycle_invoke_stepfunctions/aws.py:12-21 | No tag is declared both as a string and as a boolean, so the second loop does not overwrite the first. |
| AsgTags.AddTags | src/autorecycle_invoke_stepfunctions/aws.py:57-75 | The loop adds exactly what the specification adds. |
| AsgTags.AddTag | src/autorecycle_invoke_stepfunctions/aws.py:68-75 | `_add_tag` and `_add_boolean_tag`: a tag with values is stored from its first value, lower-cased and compared with `true` for a boolean tag, and a tag without values leaves the dictionary alone; AddAllEntries states this for a list of tags. |
| AsgTags.GetAutorecyclingTags | src/autorecycle_invoke_stepfunctions/aws.py:45-63 | The two loops build exactly the specified tags. |
| AsgTags.StepFunctionsClient.Get | src/autorecycle_invoke_stepfunctions/aws.py:24-28 | The client is created on first use and reused afterwards. |
| InvokeHandler.CopyTagsEntries | src/autorecycle_invoke_stepfunctions/handler.py:56-58 | The payload gains exactly the keys whose tags are present, and keeps the other entries. |
| InvokeHandler.CopyTagsValue | src/autorecycle_invoke_stepfunctions/handler.py:56-58 | A mapped key holds its tag's value. |
| InvokeHandler.PayloadKeyLengths | src/autorecycle_invoke_stepfunctions/handler.py:14-21 | The six payload keys have six different lengths, so they are pairwise different. |
| InvokeHandler.PayloadKeys | src/autorecycle_invoke_stepfunctions/handler.py:46-60 | The tagged part of the payload has exactly the keys whose tags the group carries. |
| InvokeHandler.CopiedFromPairs | src/autorecycle_invoke_stepfunctions/handler.py:56-58 | Every copied key is a key of the map. |
| InvokeHandler.PayloadKeysShort | src/autorecycle_invoke_stepfunctions/handler.py:46-60 | No tagged key collides with the fixed keys `account_id`, `success_channel`, `component`, `auto_scaling_group_name` and `emoji`. |
| InvokeHandler.PayloadOmitsUnmapped | src/autorecycle_invoke_stepfunctions/handler.py:14-21 | The recycle flag and the override name are not copied into the payload. |
| InvokeHandler.PayloadCopiesTags | src/autorecycle_invoke_stepfunctions/handler.py:56-58 | Every mapped tag the group carries appears under its payload key with its value. |
| InvokeHandler.ConstructPayload | src/autorecycle_invoke_stepfunctions/handler.py:46-60 | The loop builds exactly the specified payload. |
| InvokeHandler.Payload | src/autorecycle_invoke_stepfunctions/handler.py:46-60 | `construct_payload` as a specification: the fixed fields and the copied tags; PayloadKeys, PayloadCopiesTags and PayloadOmitsUnmapped state its contents. |
| InvokeHandler.StateMachineArn | src/autorecycle_invoke_stepfunctions/sf_start_execution.py:12-17 | The ARN names the account and the tagged state machine, `autorecycle` by default. |
| InvokeHandler.StateMachineArnReadsBack | src/autorecycle_invoke_stepfunctions/sf_start_execution.py:12-17 | The account and the state machine name can be read back from their positions in the ARN. |
| InvokeHandler.ExecutionName | src/autorecycle_invoke_stepfunctions/sf_start_execution.py:18 | The execution name is the component, a dash and the time stamp. |
| InvokeHandler.TargetComponent | src/autorecycle_invoke_stepfunctions/handler.py:39 | The override tag when present, the component otherwise. |
| InvokeHandler.NoComponentNoCalls | src/autorecycle_invoke_stepfunctions/handler.py:27-30 | Without a component nothing is called; an event that cannot be read raises. |
| InvokeHandler.InvokeLaunches | src/autorecycle_invoke_stepfunctions/handler.py:24-43 | Once the component, the environment, the group and its tags are known, the handler is Launch on them. |
| InvokeHandler.LaunchIffRecyclable | src/autorecycle_invoke_stepfunctions/sf_start_execution.py:11-26 | After the group lookup and the tag request, one execution starts exactly when the group is recyclable, with the constructed payload, the tagged state machine and the execution name; the handler then fails exactly when `start_execution` raises something other than a ClientError, with that error. |
| InvokeHandler.Invoke | src/autorecycle_invoke_stepfunctions/handler.py:24-43 | `lambda_handler` as a specification; NoComponentNoCalls, InvokeLaunches, LaunchIffRecyclable and FailureStartsNothing state what it does. |
| InvokeHandler.FailureStartsNothing | src/autorecycle_invoke_stepfunctions/handler.py:24-43 | A handler that raises has started no execution, unless it raised from `start_execution` with an error other than a ClientError; that request is then its last call. |
| InvokeHandler.LaunchFailure | src/autorecycle_invoke_stepfunctions/sf_start_execution.py:20-26 | Once the group and its tags are known, a failing handler made the start request last, and failed because that request raised something other than a ClientError. |
| InvokeHandler.Launch | src/autorecycle_invoke_stepfunctions/handler.py:36-43 | The handler once the group and its tags are known: the group lookup and the tag request, then the start request only for a recyclable group; LaunchIffRecyclable and LaunchFailure state what it does. |
| InvokeHandler.StartOutcome | src/autorecycle_invoke_stepfunctions/sf_start_execution.py:20-26 | The outcome of `start_execution`: a ClientError is logged and swallowed, any other exception propagates as the handler's error; LaunchIffRecyclable states it. |
| InvokeHandler.LambdaHandler | src/autorecycle_invoke_stepfunctions/handler.py:24-43 | The method's calls and outcome are those of the handler's specification. |
| Monitor.LaunchingActivities | src/monitor_autorecycle/main.py:160-161 | Exactly the activities whose description contains `Launching`, in input order, each as often as it occurs in the input. |
| Monitor.Latest | src/monitor_autorecycle/main.py:168 | `sorted(ts)[-1]`: an element of the list no smaller than any other. |
| Monitor.StartTimes | src/monitor_autorecycle/main.py:168 | The start time of each activity, in order. |
| Monitor.LastActivityTimeIsLatest | src/monitor_autorecycle/main.py:164-168 | None exactly when no activity mentions the instance; otherwise the start of a mentioning activity, and no mentioning activity starts later. |
| Monitor.LastActivityTime | src/monitor_autorecycle/main.py:164-168 | `_last_instance_activity_time` as a specification; LastActivityTimeIsLatest states its result. |
| Monitor.CloseToAllIff | src/monitor_autorecycle/main.py:80-86 | One time is close to each of the others exactly when it is within the delta of every one. |
| Monitor.CloseToAll | src/monitor_autorecycle/main.py:80-86 | One time checked against the later ones of `itertools.combinations`; CloseToAllIff states its meaning. |
| Monitor.CompareStartTimesIff | src/monitor_autorecycle/main.py:80-86 | Comparing all pairs of `itertools.combinations` passes exactly when every two times are within the delta of each other. |
| Monitor.CompareStartTimes | src/monitor_autorecycle/main.py:80-86 | `_compare_start_times` as a specification; CompareStartTimesIff states its meaning. |
| Monitor.CollectedIff | src/monitor_autorecycle/main.py:49-69 | The loop collects a time for every instance exactly when every instance is healthy, in service and has a time, in instance order. |
| Monitor.LaunchTimesIff | src/monitor_autorecycle/main.py:49-69 | Launch times exist for all instances exactly when each is healthy, in service and has a launching activity, and then they are the instances' last launch times. |
| Monitor.InstancesDoneIff | src/monitor_autorecycle/main.py:45-77 | Recycling is complete exactly when every instance is healthy, in service and launched, and all were launched within two minutes of each other. |
| Monitor.InstancesDone | src/monitor_autorecycle/main.py:45-77 | `check_instances` as a specification; InstancesDoneIff states its meaning. |
| Monitor.CheckInstances | src/monitor_autorecycle/main.py:45-77 | The loop with its early returns decides exactly as `InstancesDoneIff` states. |
| Monitor.NoTimesAfter | src/monitor_autorecycle/main.py:58-67 | Once an instance fails, the whole list fails, which the loop's early return relies on. |
| Monitor.DescribeAsg | src/monitor_autorecycle/main.py:121-148 | A found group is the first group named `<component>-asg…`, not scaled to zero and with instances; ScaledDown is raised only when that first match is scaled to zero; any other failure is `No ASG found for <component>`. |
| Monitor.DescribeAsgFirst | src/monitor_autorecycle/main.py:131-148 | Only the first matching group decides: ScaledDown exactly when its MaxSize is 0; success exactly when its MaxSize is not 0 and it has instances, and then the result is that group; `No ASG found` when it is empty or when no group matches. |
| Monitor.Check | src/monitor_autorecycle/main.py:33-42 | The groups are listed first. |
| Monitor.NoLaunchNotDone | src/monitor_autorecycle/main.py:38-40 | Without launching activities the check answers not done. |
| Monitor.CheckComponent | src/monitor_autorecycle/main.py:33-42 | The method's calls and result are those of `check`'s specification. |
| Monitor.Counted | src/monitor_autorecycle/main.py:90-97 | The counter grows by one from 0 when absent, the message content is created when missing, and nothing else changes. |
| Monitor.NoComponentRefused | src/monitor_autorecycle/main.py:25-27 | An event without a component raises `No component in event` and is left as it was. |
| Monitor.RunsAreCounted | src/monitor_autorecycle/main.py:94-97 | Every handled event leaves with its counter one higher and the same component. |
| Monitor.TooLongGivesUp | src/monitor_autorecycle/main.py:99-105 | Beyond 20 runs nothing is called and the event fails, in red, with the too-long text. |
| Monitor.MonitorRun | src/monitor_autorecycle/main.py:89-118 | `_monitor_autorecycle(event)` as a specification: the counter advanced, a give-up beyond 20 runs, otherwise the check of the group and the result it reports; TooLongGivesUp, ScaledDownSucceeds, SuccessMeansDone and RunsAreCounted state what it does, and MonitorAutorecycle is proved equal to it. |
| Monitor.HandlerRun | src/monitor_autorecycle/main.py:17-30 | `lambda_handler(event, context)` as a specification: an event without a component is refused, any other is monitored; NoComponentRefused states the refusal, and LambdaHandler is proved equal to it. |
| Monitor.ScaledDownSucceeds | src/monitor_autorecycle/main.py:114-116 | A group scaled to zero counts as a successful recycle with the scaled-down text. |
| Monitor.SuccessMeansDone | src/monitor_autorecycle/main.py:107-116 | Within 20 runs, success is reported exactly when the check says done or the group is scaled down. |
| Monitor.MonitorEvent.LambdaHandler | src/monitor_autorecycle/main.py:17-30 | The event, the calls and the error after the handler are those of its specification. |
| Monitor.MonitorEvent.MonitorAutorecycle | src/monitor_autorecycle/main.py:89-118 | The event is updated in place as `_monitor_autorecycle`'s specification says. |
| ScaleTypes.NewEvent | src/autorecycle_scale_asg/lambda_types.py:6-29 | A new event has the given component and success channel, `team-infra-alerts` as monitoring channel, and every other field None. |
| ScaleAutorecycle.OverallProgress | src/autorecycle_scale_asg/autorecycle.py:22-26 | True exactly when every activity's progress is 100. |
| ScaleAutorecycle.OverallStatusCode | src/autorecycle_scale_asg/autorecycle.py:29-33 | True exactly when every activity's status code is `Successful`. |
| ScaleAutorecycle.RecentlyScaledMonotone | src/autorecycle_scale_asg/autorecycle.py:36-41 | An activity without an end is never recent; a recent activity stays recent when it ended later or is looked at earlier. |
| ScaleAutorecycle.RecentlyScaled | src/autorecycle_scale_asg/autorecycle.py:36-41 | `recently_scaled(activity)`: the activity has an end time less than ten minutes before now; RecentlyScaledMonotone, NothingToDo and ScaleInTarget state its properties. |
| ScaleAutorecycle.EmptyGroupScalesOut | src/autorecycle_scale_asg/autorecycle.py:52-60 | The first group without instances is scaled out, before any scale-in is considered. |
| ScaleAutorecycle.ScaleOutTarget | src/autorecycle_scale_asg/autorecycle.py:52-60 | A scale-out happens only on a group without instances, the first such group in list order. |
| ScaleAutorecycle.GetNextAsgAction | src/autorecycle_scale_asg/autorecycle.py:52-86 | `get_next_asg_action` as a specification; EmptyGroupScalesOut, ScaleOutTarget, ScaleInTarget and NothingToDo state what it decides. |
| ScaleAutorecycle.ScaleInTarget | src/autorecycle_scale_asg/autorecycle.py:62-84 | A scale-in happens only when no group is empty, on the first group holding an instance off the group's launch template version or not recently scaled. |
| ScaleAutorecycle.NothingToDo | src/autorecycle_scale_asg/autorecycle.py:52-86 | No action exactly when every group has instances, was scaled recently and all its instances run its launch template version. |
| ScaleAutorecycle.CreateOutputParams | src/autorecycle_scale_asg/autorecycle.py:89-102 | The output keeps the event's channels, component, monitoring channel, pager flag, success channel and team, advances the counter, and sets the emoji, username, bold component text and status True; every other field is unset. |
| ScaleAutorecycle.NextCounter | src/autorecycle_scale_asg/autorecycle.py:93 | `event.counter + 1 if event.counter else 1`: a missing or zero counter restarts at 1; CreateOutputParams and ScaleHandler.ScaleKeepsOutputParams state the counter it gives the output. |
| ScaleAutorecycle.CounterAdvances | src/autorecycle_scale_asg/autorecycle.py:93 | A first run's output carries counter 1 and a positive counter grows by one. |
| ScaleAutoscaling.StripAzSuffix | src/autorecycle_scale_asg/autoscaling.py:23 | One substitution is made exactly when the name ends in `_a`, `_b` or `_c`, and then exactly those two characters are removed. |
| ScaleAutoscaling.StripAzSuffixAppended | src/autorecycle_scale_asg/autoscaling.py:23 | Stripping a zone suffix just appended gives the base back. |
| ScaleAutoscaling.NameMatchesBuilt | src/autorecycle_scale_asg/autoscaling.py:24-29 | The base, the required extension, `-asg-` and a non-empty `[a-z\d]` tail form a matching name. |
| ScaleAutoscaling.NameMatchesSplits | src/autorecycle_scale_asg/autoscaling.py:24-29 | Every matching name splits into the base, the extension, `-asg-` and such a tail. |
| ScaleAutoscaling.SuffixedComponentMatchesZones | src/autorecycle_scale_asg/autoscaling.py:23-31 | A component with a zone suffix matches the groups of every zone of its base and not the bare base's group. |
| ScaleAutoscaling.PlainComponentMatchesOnlyItself | src/autorecycle_scale_asg/autoscaling.py:23-31 | A component without a zone suffix matches its own groups and not those of a zone. |
| ScaleAutoscaling.SimilarNamesExcluded | src/autorecycle_scale_asg/autoscaling.py:29 | Names sharing the component's letters without the `-asg-` form do not match. |
| ScaleAutoscaling.DescribeAsgSelects | src/autorecycle_scale_asg/autoscaling.py:16-39 | The result is exactly the matching groups of all pages, in order; it raises, with the message naming the base, exactly when none matches. |
| ScaleAutoscaling.DescribeAsg | src/autorecycle_scale_asg/autoscaling.py:16-39 | The page loop and the matching loop produce exactly the specified result. |
| ScaleAutoscaling.DescribeAsgResult | src/autorecycle_scale_asg/autoscaling.py:16-39 | `describe_asg(component)` as a specification over the listed pages; DescribeAsgSelects states its result and DescribeAsg is proved equal to it. |
| ScaleAutoscaling.DescribeScalingActivities | src/autorecycle_scale_asg/autoscaling.py:54-72 | The first activity of the answer, or without one a synthetic activity at progress 100, `Successful`, without an end time. |
| ScaleAutoscaling.SyntheticActivityIsSettled | src/autorecycle_scale_asg/autoscaling.py:60-70 | The synthetic activity counts as finished and successful but never as a recent scaling. |
| ScaleHandler.DetailsCalls | src/autorecycle_scale_asg/handler.py:65-67 | The loop asks for the activities of each group in order, stops at the first failure, and succeeds exactly when every request does. |
| ScaleHandler.DetailsValues | src/autorecycle_scale_asg/handler.py:63-70 | On success each group's latest activity is stored under its name and listed in group order; on failure the last request made is the failing one and all before it succeeded. |
| ScaleHandler.DetailsStop | src/autorecycle_scale_asg/handler.py:65-67 | Once a request fails, the later groups do not change the outcome. |
| ScaleHandler.Observe | src/autorecycle_scale_asg/handler.py:62-67 | The groups are listed first; every group observed has an activity entry. |
| ScaleHandler.ObserveSucceeds | src/autorecycle_scale_asg/handler.py:62-67 | Observation succeeds exactly when the listing succeeds, some group matches, and every matching group's activity request succeeds. |
| ScaleHandler.ObserveAsksEachGroup | src/autorecycle_scale_asg/handler.py:62-67 | A successful observation has the matching groups and made one activity request per group, in order. |
| ScaleHandler.ObserveHoldsLatest | src/autorecycle_scale_asg/handler.py:63-70 | The observed activities are each group's latest activity. |
| ScaleHandler.ObserveOnlyAsks | src/autorecycle_scale_asg/handler.py:62-67 | After the listing, observation only asks for activities. |
| ScaleHandler.ObserveGroups | src/autorecycle_scale_asg/handler.py:62-67 | The method observes exactly as specified. |
| ScaleHandler.CollectDetails | src/autorecycle_scale_asg/handler.py:63-67 | The loop collects exactly the specified details. |
| ScaleHandler.Details | src/autorecycle_scale_asg/handler.py:63-67 | The loop filling `asg_activity_details` as a specification: one request per group in order, stopping at the first that raises; DetailsCalls, DetailsStop and DetailsValues state what it does, and CollectDetails is proved equal to it. |
| ScaleHandler.OutcomeDecides | src/autorecycle_scale_asg/handler.py:61-135 | A failed observation crashes with its error; otherwise in progress exactly when some activity is unfinished, last failed exactly when all finished and one did not succeed, complete exactly when nothing is left to do, and else the next action's policy is executed. |
| ScaleHandler.OutputKeepsParams | src/autorecycle_scale_asg/handler.py:61-135 | Whatever the outcome, the fields set by `create_output_params` other than the status are kept. |
| ScaleHandler.ScaleKeepsOutputParams | src/autorecycle_scale_asg/handler.py:45-46 | The output of `scale_asg` carries the event's channels, component, team, pager flag and success and monitoring channels, the advanced counter, the emoji, the username and the bold component text, whatever happens. |
| ScaleHandler.FailuresAreReported | src/autorecycle_scale_asg/handler.py:123-135 | An exception is reported exactly when observation fails or the policy execution fails, and then as a failed, paged, red message. |
| ScaleHandler.PolicyFollowsNextAction | src/autorecycle_scale_asg/handler.py:95-99 | At most one policy is executed, as the last call, only after all activities finished successfully, and it is `recycle-scale-<in/out>` on the next action's group. |
| ScaleHandler.InProgressWaits | src/autorecycle_scale_asg/handler.py:72-80 | An unfinished activity ends the run after observing, with the initiated message. |
| ScaleHandler.SuccessIffNothingToDo | src/autorecycle_scale_asg/handler.py:111-121 | Success is reported exactly when everything finished successfully and nothing is left to do, and then with status True and no exception. |
| ScaleHandler.ScalingMessageOnFirstRun | src/autorecycle_scale_asg/handler.py:96-109 | After executing a policy the recycle is not yet a success, and a message is set only on the first run. |
| ScaleHandler.ScaleAsg | src/autorecycle_scale_asg/handler.py:45-135 | The method's calls and output are those of `scale_asg`'s specification. |
| ScaleHandler.ScaleRun | src/autorecycle_scale_asg/handler.py:45-135 | `scale_asg(event)` as a specification: the observation calls, then a scaling policy only when one was chosen, and the output built from the outcome; ScaleKeepsOutputParams, PolicyFollowsNextAction, InProgressWaits, SuccessIffNothingToDo, FailuresAreReported and ScalingMessageOnFirstRun state what it does, and ScaleAsg is proved equal to it. |
| ScaleHandler.OutcomeOf | src/autorecycle_scale_asg/handler.py:61-135 | The branch `scale_asg` takes: a crash on a failed observation, in progress, last failed, a policy executed, or complete; OutcomeDecides states when each happens. |
| ScaleHandler.TimeoutEvent | src/autorecycle_scale_asg/handler.py:27-40 | At the 60th run a fresh failed event goes to the monitoring channel with the too-long message and a PagerDuty trigger. |
| ScaleHandler.CounterStateMachine | src/autorecycle_scale_asg/handler.py:16-42 | A counter above 60 raises; a first run starts at counter 1 on the success channel; a counter below 60 runs `scale_asg`; exactly 60 gives up. |
| ScaleHandler.RunsAreCounted | src/autorecycle_scale_asg/handler.py:21-26 | A run that calls AWS had fewer than 60 earlier runs and leaves the counter one higher. |
| ScaleHandler.HandleEvent | src/autorecycle_scale_asg/handler.py:16-42 | The method returns exactly the specified outcome. |
| ScaleHandler.HandleRun | src/autorecycle_scale_asg/handler.py:16-42 | `handle_event(event)` as a specification: a first run scales from counter 0 on the success channel, a run below the limit scales, the run at the limit times out without calls, and a later one raises; CounterStateMachine and RunsAreCounted state what it does, and HandleEvent is proved equal to it. |
| Strs.Split | src/autorecycle_delayer/aws_autorecycle_delayer_lambda.py:15 | `str.split(c)`: at least one part, and no part holds the separator. |
| Strs.SplitJoin | src/mongo_recycler/process/replica_set_health.py:41 | Splitting a `join` of parts without the separator gives the parts back. |
| Strs.JoinSplit | src/mongo_recycler/process/replica_set_health.py:41 | Joining the parts of a split with the separator gives the text back. |
| Strs.BeforeFirst | src/get_consul_nodes/main.py:85 | `s.split(sep)[0]`: the longest prefix before any occurrence of the separator, either the whole text or followed by the separator. |
| Strs.BeforeFirstAtIff | src/autorecycle_invoke_stepfunctions/get_component_details.py:36 | `(a + sep + b).split(sep)[0]` is `a` exactly when `sep` does not occur in `a` followed by all but the last character of `sep`. |
| Strs.Strip | src/get_consul_nodes/main.py:85 | `str.strip(chars)`: a slice of the text that neither starts nor ends with a stripped character, and everything before and after that slice is a stripped character. |
| Strs.StripSlice | src/get_consul_nodes/main.py:85 | Stripping both ends keeps the slice that starts where `lstrip` stopped, with only stripped characters before and after it. |
| Strs.Lower | src/autorecycle_invoke_stepfunctions/aws.py:75 | `str.lower()` on ASCII letters: the same length, each character lowered. |
| Strs.ParseIntToString | src/autorecycle_delayer/aws_autorecycle_delayer_lambda.py:19 | `int()` reads back every integer written in decimal. |
| Strs.ParseNatToString | src/autorecycle_delayer/aws_autorecycle_delayer_lambda.py:19 | `int()` reads back every natural number written in decimal. |
| Strs.ParseNegatedNatToString | src/autorecycle_delayer/aws_autorecycle_delayer_lambda.py:19 | `int()` reads `-` followed by a natural number's decimal digits as its negation. |

## Left out

- Logging, `print`, `json_logger_config`, `aws_lambda_logging` and powertools setup: they only write logs. `report_outcome` and `report_cluster_status` are modelled, but `step` only logs them, so its specification does not use them.
- The network and AWS clients are oracles: boto3, pymongo, `requests.post`, `urllib`, Vault `get_credentials` and SSM. Temporary-file writes and SSL contexts are I/O. The name of the temporary certificate file is a parameter.
- Sleeps and waits are not timed. Only the `time.sleep` calls of `poll` are recorded, as `Sleep` calls of the history; the tenacity waits between retries are not recorded at all: `wait_exponential` in `_connect` and `wait_fixed(60)` in `_post_to_sensu`. Only the attempt bounds are modelled: 10 connection attempts, 8 Sensu posts, 50 termination checks and 60 health checks.
- The retry predicate `retry_if_exception(ConnectionError)` of `_post_to_sensu` is not a precise classifier. Every failed post is retried, up to the 8-attempt bound.
- Times are whole seconds or a `Clock` of the day, and "now" is a parameter. `datetime.now`, pytz localisation and the RFC 3339 rendering are external.
  - The delayer returns a day offset and the start time instead of a formatted time stamp.
  - The execution name's time stamp is a parameter.
- The StartTime of the synthetic activity from `describe_scaling_activities` is not modelled. No decision reads it.
- The repr of an exception in `scale_asg` is an environment parameter.
- The response of `execute_policy` is ignored, as in the source. Only whether it raised is modelled.
- The JMESPath search in `get_asg` is an oracle from component to group name.
- pydantic `model_validate` and `model_dump(exclude_unset=True)` are not modelled. `handle_event` is modelled on the validated event, so the aliasing between the input and its validated copy is not captured.
- Regular expressions are modelled by their effect on names. These Python `re` details are not captured:
  - `$` also matching before a trailing newline;
  - `\d` matching any Unicode digit;
  - a component holding regex metacharacters, which the model reads literally.
- `int()` accepts an optional sign and ASCII digits only. Surrounding whitespace, underscores and non-ASCII digits are not modelled.
- `str.lower()` lowers ASCII letters only.
- `str.strip()` with no argument strips the ASCII whitespace characters and `\x1c`–`\x1f` only. The other Unicode whitespace Python also strips (such as U+0085, U+00A0, U+2000–U+200A and U+3000) is kept.
- `get_launch_template_version` is modelled by its result: an optional version string per group and per instance. The `str()` of the version number is not modelled.
- Malformed AWS responses raising KeyError are not modelled: a missing `Reservations`, `Instances`, `InstanceId`, `Activities`, `Parameter` or `Tags` key, and a launch template version without `LaunchTemplateData.ImageId` (src/mongo_recycler/connectors/aws.py:94); the launch template oracle answers with image ids directly.
- A `replSetGetStatus` reply always carries `ok`, `set` and `members` in the model. A reply without one of them raises KeyError in `node_details`, which is not modelled. A missing `myState` is modelled; it raises InstanceStateNotFound.
- Wrongly typed event fields are not modelled: a `message_content` that is not a dictionary, a counter that is not an integer, an `expectedPeers` that is not an integer.
- A missing `MaxSize` in the monitor's groups is not modelled. Every group has one.
- An event whose `cluster` key is present but null is not modelled. It would make a host `consul-None`; the model takes `cluster` as present or absent.
- The `recycle_window` text is split on commas. Only its first two parts are read, as in the source; further parts are ignored.
- `sf_start_execution` catches every ClientError of `start_execution` and only logs it. The model records the call and keeps only its kind of answer: started, a ClientError, or another exception, which propagates. The response text is not modelled.
- The module-level `ca_certificate` and `sf_client` singletons are objects passed to the handlers. Their sharing across Lambda invocations is not modelled.
- The event dictionaries the handlers mutate are modelled as one object per handler call. Aliasing of the `tags` dictionary passed to `construct_payload` is not modelled; the payload holds copies.
- `InvokeHandler.LambdaHandler`: when `ACCOUNT_ID` or `SLACK_CHANNEL` is missing, it fails before any call. `get_current_environment` is read but not used by any decision, so it is not modelled.
- Some source files are not part of this model:
  - `src/terminate_consul_instance/main.py`: a single boto call.
  - `src/autorecycle_scale_asg/models.py`: an unused record.
  - the logger modules: configuration only.
  - `tests/integration/test_lambda.py`: a network test.
- The ANSI colour functions of `decision.py` are modelled as colour tags.
