/**
 * The QuickSight entities: their ARNs, their `to_json` projections, and
 * the group's own map of memberships. The partition a region belongs to is
 * given by the caller (it is looked up outside this model).
 */
module DataModels {
  import opened Wrappers
  import opened Json
  import opened OrderedMaps
  import opened Permissions

  /** `arn:{partition}:quicksight:{region}:{account}:{resource}`. */
  function Arn(partition: string, region: string, account: string, resource: string): string
  {
    "arn:" + partition + ":quicksight:" + region + ":" + account + ":" + resource
  }

  function DataSetArn(partition: string, region: string, account: string, dataSetId: string): string
  {
    Arn(partition, region, account, "data-set/" + dataSetId)
  }

  function IngestionArn(partition: string, region: string, account: string, dataSetId: string, ingestionId: string): string
  {
    Arn(partition, region, account, "data-set/" + dataSetId + "/ingestions/" + ingestionId)
  }

  /** The namespace plays no part: every group ARN says `default`. */
  function GroupArn(partition: string, region: string, account: string, groupName: string): string
  {
    Arn(partition, region, account, "group/default/" + groupName)
  }

  function MembershipArn(partition: string, region: string, account: string, groupName: string, userName: string): string
  {
    Arn(partition, region, account, "group/default/" + groupName + "/" + userName)
  }

  function UserArn(partition: string, region: string, account: string, userName: string): string
  {
    Arn(partition, region, account, "user/default/" + userName)
  }

  function FolderArn(partition: string, region: string, account: string, folderId: string): string
  {
    Arn(partition, region, account, "folder/" + folderId)
  }

  /** A membership's ARN is its group's ARN followed by `/` and the member name. */
  lemma MembershipArnExtendsGroupArn(partition: string, region: string, account: string, groupName: string, userName: string)
    ensures MembershipArn(partition, region, account, groupName, userName)
         == GroupArn(partition, region, account, groupName) + "/" + userName
  {
    var p := "arn:" + partition + ":quicksight:" + region + ":" + account + ":";
    assert p + ("group/default/" + groupName + "/" + userName) == (p + ("group/default/" + groupName)) + "/" + userName;
  }

  /** An ingestion's ARN is its data set's ARN followed by `/ingestions/` and the ingestion id. */
  lemma IngestionArnExtendsDataSetArn(partition: string, region: string, account: string, dataSetId: string, ingestionId: string)
    ensures IngestionArn(partition, region, account, dataSetId, ingestionId)
         == DataSetArn(partition, region, account, dataSetId) + "/ingestions/" + ingestionId
  {
    var p := "arn:" + partition + ":quicksight:" + region + ":" + account + ":";
    assert p + ("data-set/" + dataSetId + "/ingestions/" + ingestionId) == (p + ("data-set/" + dataSetId)) + "/ingestions/" + ingestionId;
  }

  /** Different group names in one region and account give different ARNs. */
  lemma GroupArnInjective(partition: string, region: string, account: string, g1: string, g2: string)
    requires GroupArn(partition, region, account, g1) == GroupArn(partition, region, account, g2)
    ensures g1 == g2
  {
    var p := "arn:" + partition + ":quicksight:" + region + ":" + account + ":group/default/";
    assert GroupArn(partition, region, account, g1) == p + g1;
    assert GroupArn(partition, region, account, g2) == p + g2;
    assert g1 == (p + g1)[|p|..];
  }

  // ---------------------------------------------------------------------
  // Data sets and ingestions: built on request, never stored.

  datatype DataSet = DataSet(arn: string, id: string, name: string, region: string, accountId: string, partition: string)
  {
    function ToJson(): (j: Json)
      ensures Field(j, "Arn") == Some(JStr(arn))
      ensures Field(j, "DataSetId") == Some(JStr(id))
      ensures Field(j, "IngestionArn") == Some(JStr(Arn(partition, region, accountId, "ingestion/tbd")))
    {
      JObj(map["Arn" := JStr(arn), "DataSetId" := JStr(id),
            "IngestionArn" := JStr(Arn(partition, region, accountId, "ingestion/tbd"))])
    }
  }

  function NewDataSet(partition: string, accountId: string, region: string, id: string, name: string): (d: DataSet)
    ensures d.arn == DataSetArn(partition, region, accountId, id)
    ensures d.id == id && d.name == name && d.region == region && d.accountId == accountId
  {
    DataSet(DataSetArn(partition, region, accountId, id), id, name, region, accountId, partition)
  }

  datatype Ingestion = Ingestion(arn: string, ingestionId: string)
  {
    /** The status is always reported as `INITIALIZED`. */
    function ToJson(): (j: Json)
      ensures Field(j, "Arn") == Some(JStr(arn))
      ensures Field(j, "IngestionId") == Some(JStr(ingestionId))
      ensures Field(j, "IngestionStatus") == Some(JStr("INITIALIZED"))
    {
      JObj(map["Arn" := JStr(arn), "IngestionId" := JStr(ingestionId), "IngestionStatus" := JStr("INITIALIZED")])
    }
  }

  function NewIngestion(partition: string, accountId: string, region: string, dataSetId: string, ingestionId: string): (i: Ingestion)
    ensures i.arn == IngestionArn(partition, region, accountId, dataSetId, ingestionId)
    ensures i.ingestionId == ingestionId
  {
    Ingestion(IngestionArn(partition, region, accountId, dataSetId, ingestionId), ingestionId)
  }

  // ---------------------------------------------------------------------
  // Memberships and groups.

  /** A member of a group, named by user name only: the user need not exist. */
  datatype Membership = Membership(group: string, user: string, arn: string)
  {
    function ToJson(): (j: Json)
      ensures Field(j, "Arn") == Some(JStr(arn))
      ensures Field(j, "MemberName") == Some(JStr(user))
    {
      JObj(map["Arn" := JStr(arn), "MemberName" := JStr(user)])
    }
  }

  function NewMembership(partition: string, accountId: string, region: string, group: string, user: string): (m: Membership)
    ensures m.group == group && m.user == user
    ensures m.arn == MembershipArn(partition, region, accountId, group, user)
  {
    Membership(group, user, MembershipArn(partition, region, accountId, group, user))
  }

  class QuicksightGroup {
    const partition: string
    const arn: string
    const groupName: string
    var description: string
    const awsAccountId: string
    const namespace: string
    const region: string
    /** Member name to membership, in the order members were first added. */
    var members: OrderedMap<string, Membership>

    /** Every membership is the one `add_member` builds for the name it is stored under. */
    ghost predicate Valid()
      reads this
    {
      && members.Valid()
      && forall u :: u in members.entries ==>
           members.entries[u] == NewMembership(partition, awsAccountId, region, groupName, u)
    }

    constructor (partition: string, region: string, groupName: string, description: string, awsAccountId: string, namespace: string)
      ensures Valid()
      ensures this.arn == GroupArn(partition, region, awsAccountId, groupName)
      ensures this.partition == partition && this.region == region && this.groupName == groupName
      ensures this.description == description && this.awsAccountId == awsAccountId && this.namespace == namespace
      ensures this.members == Empty()
    {
      this.partition := partition;
      this.arn := GroupArn(partition, region, awsAccountId, groupName);
      this.groupName := groupName;
      this.description := description;
      this.awsAccountId := awsAccountId;
      this.namespace := namespace;
      this.region := region;
      this.members := Empty();
    }

    /** `add_member`: records (or replaces) the membership of `memberName` and returns it. */
    method AddMember(memberName: string) returns (m: Membership)
      requires Valid()
      modifies this
      ensures Valid()
      ensures m == NewMembership(partition, awsAccountId, region, groupName, memberName)
      ensures members == old(members).Put(memberName, m)
      ensures description == old(description)
      ensures GetMember(memberName) == Some(m)
    {
      m := NewMembership(partition, awsAccountId, region, groupName, memberName);
      members := members.Put(memberName, m);
    }

    /** `delete_member`: forgets `userName`; nothing happens when it is not a member. */
    method DeleteMember(userName: string)
      requires Valid()
      modifies this
      ensures Valid()
      ensures members == old(members).Remove(userName)
      ensures description == old(description)
      ensures GetMember(userName) == None
    {
      members := members.Remove(userName);
    }

    /** `get_member`: the membership of `userName`, if it is a member. */
    function GetMember(userName: string): (r: Option<Membership>)
      reads this
      requires Valid()
      ensures r.Some? <==> userName in members.entries
      ensures r.Some? ==> r.value.user == userName && r.value.group == groupName
      ensures r.Some? ==> r.value == members.entries[userName]
    {
      members.Get(userName)
    }

    /** `list_members`: one membership per member, in the order members were added. */
    function ListMembers(): (r: seq<Membership>)
      reads this
      requires Valid()
      ensures |r| == |members.keys|
      ensures forall i :: 0 <= i < |r| ==> r[i].user == members.keys[i] && r[i].group == groupName
    {
      members.Values()
    }

    /** `to_json`: the principal id reported for a group is its account id. */
    function ToJson(): (j: Json)
      reads this
      ensures Field(j, "Arn") == Some(JStr(arn))
      ensures Field(j, "GroupName") == Some(JStr(groupName))
      ensures Field(j, "Description") == Some(JStr(description))
      ensures Field(j, "PrincipalId") == Some(JStr(awsAccountId))
      ensures Field(j, "Namespace") == Some(JStr(namespace))
    {
      JObj(map["Arn" := JStr(arn), "GroupName" := JStr(groupName), "Description" := JStr(description),
            "PrincipalId" := JStr(awsAccountId), "Namespace" := JStr(namespace)])
    }
  }

  /**
   * `group.delete_member(userName)` for each group in turn. The groups must
   * be distinct objects, so that emptying one leaves the others as they were.
   */
  method DeleteMemberFromAll(gs: seq<QuicksightGroup>, userName: string)
    requires forall a, b :: 0 <= a < b < |gs| ==> gs[a] != gs[b]
    requires forall j :: 0 <= j < |gs| ==> gs[j].Valid()
    modifies set g | g in gs
    ensures forall j :: 0 <= j < |gs| ==> gs[j].Valid()
    ensures forall j :: 0 <= j < |gs| ==> old(gs[j].Valid()) && gs[j].members == old(gs[j].members.Remove(userName))
    ensures forall j :: 0 <= j < |gs| ==> gs[j].description == old(gs[j].description)
  {
    var i := 0;
    while i < |gs|
      invariant 0 <= i <= |gs|
      invariant forall j :: 0 <= j < i ==> gs[j].Valid()
      invariant forall j :: 0 <= j < i ==> gs[j].members == old(gs[j].members).Remove(userName)
      invariant forall j :: 0 <= j < i ==> gs[j].description == old(gs[j].description)
      invariant forall j :: i <= j < |gs| ==> unchanged(gs[j])
    {
      assert forall j :: 0 <= j < |gs| && j != i ==> gs[j] != gs[i];
      gs[i].DeleteMember(userName);
      i := i + 1;
    }
  }

  // ---------------------------------------------------------------------
  // Users.

  class QuicksightUser {
    const arn: string
    var email: string
    const identityType: string
    const username: string
    var userRole: string
    const active: bool
    /** Random in the service; supplied by the caller here. */
    const principalId: string

    /** A new user is never active. */
    constructor (partition: string, accountId: string, region: string, email: string, identityType: string,
                 username: string, userRole: string, principalId: string)
      ensures this.arn == UserArn(partition, region, accountId, username)
      ensures this.email == email && this.identityType == identityType && this.username == username
      ensures this.userRole == userRole && this.principalId == principalId
      ensures !this.active
    {
      this.arn := UserArn(partition, region, accountId, username);
      this.email := email;
      this.identityType := identityType;
      this.username := username;
      this.userRole := userRole;
      this.active := false;
      this.principalId := principalId;
    }

    function ToJson(): (j: Json)
      reads this
      ensures Field(j, "Arn") == Some(JStr(arn))
      ensures Field(j, "Email") == Some(JStr(email))
      ensures Field(j, "IdentityType") == Some(JStr(identityType))
      ensures Field(j, "Role") == Some(JStr(userRole))
      ensures Field(j, "UserName") == Some(JStr(username))
      ensures Field(j, "Active") == Some(JBool(active))
      ensures Field(j, "PrincipalId") == Some(JStr(principalId))
    {
      JObj(map["Arn" := JStr(arn), "Email" := JStr(email), "IdentityType" := JStr(identityType),
            "Role" := JStr(userRole), "UserName" := JStr(username), "Active" := JBool(active),
            "PrincipalId" := JStr(principalId)])
    }
  }

  // ---------------------------------------------------------------------
  // Folders.

  datatype Folder = Folder(
    arn: string, accountId: string, region: string, folderId: string, name: string,
    folderType: string, parentFolderArn: string, sharingModel: string,
    createdTime: string, lastUpdatedTime: string, permissions: seq<Permission>)
  {
    /** `get_folder_path`: folder paths are not implemented, so always empty. */
    function GetFolderPath(): (r: seq<string>)
      ensures r == []
    {
      []
    }

    function ToJson(): (j: Json)
      ensures Field(j, "FolderId") == Some(JStr(folderId))
      ensures Field(j, "Arn") == Some(JStr(arn))
      ensures Field(j, "Name") == Some(JStr(name))
      ensures Field(j, "FolderType") == Some(JStr(folderType))
      ensures Field(j, "FolderPath") == Some(JArr([]))
      ensures Field(j, "CreatedTime") == Some(JStr(createdTime))
      ensures Field(j, "LastUpdatedTime") == Some(JStr(lastUpdatedTime))
      ensures Field(j, "SharingModel") == Some(JStr(sharingModel))
    {
      JObj(map["FolderId" := JStr(folderId), "Arn" := JStr(arn), "Name" := JStr(name),
            "FolderType" := JStr(folderType), "FolderPath" := Strings(GetFolderPath()),
            "CreatedTime" := JStr(createdTime), "LastUpdatedTime" := JStr(lastUpdatedTime),
            "SharingModel" := JStr(sharingModel)])
    }

    /** `permissions_to_json`: each permission's projection, in order; `[]` when there are none. */
    function PermissionsToJson(): (r: seq<Json>)
      ensures permissions == [] ==> r == []
      ensures |r| == |permissions|
      ensures forall i :: 0 <= i < |r| ==>
                Field(r[i], "Principal") == Some(JStr(permissions[i].principal))
                && Field(r[i], "Actions") == Some(Strings(permissions[i].actions))
    {
      if permissions != [] then seq(|permissions|, i requires 0 <= i < |permissions| => permissions[i].ToJson())
      else []
    }
  }

  /**
   * The folder constructor. `now` is the clock reading, already rendered as
   * the service renders timestamps; both timestamps take it.
   */
  function NewFolder(partition: string, accountId: string, region: string, folderId: string, name: string,
                     folderType: string, parentFolderArn: string, permissions: seq<Permission>,
                     sharingModel: string, now: string): (f: Folder)
    ensures f.arn == FolderArn(partition, region, accountId, folderId)
    ensures f.lastUpdatedTime == f.createdTime == now
    ensures f.folderId == folderId && f.name == name && f.folderType == folderType
    ensures f.parentFolderArn == parentFolderArn && f.sharingModel == sharingModel
    ensures f.permissions == permissions
  {
    Folder(FolderArn(partition, region, accountId, folderId), accountId, region, folderId, name,
           folderType, parentFolderArn, sharingModel, now, now, permissions)
  }
}
