/** The relational schema: tenant id blocks and sequences, the tables as maps from
    primary key to row, and the constraints PostgreSQL enforces on them. */
module Schema {
  import opened Tables

  const MAX_TENANT_NAME_LEN := 128

  // ----- Text helpers ---------------------------------------------------------------

  function LowerChar(c: char): char {
    if 'A' <= c <= 'Z' then (c as int - 'A' as int + 'a' as int) as char else c
  }

  /** LOWER(s), and the fold under which two strings are compared without regard to case. */
  function Lower(s: string): (r: string)
    ensures |r| == |s|
    ensures forall i :: 0 <= i < |s| ==> r[i] == LowerChar(s[i])
  {
    seq(|s|, i requires 0 <= i < |s| => LowerChar(s[i]))
  }

  const CAPITALS := "ABCDEFGHIJKLMNOPQRSTUVWXYZ"
  const SMALL := "abcdefghijklmnopqrstuvwxyz"

  lemma LetterAt(i: nat)
    requires i < 26
    ensures |CAPITALS| == |SMALL| == 26 && CAPITALS[i] as int == 65 + i && SMALL[i] as int == 97 + i
  {
  }

  /** The fold takes each of the 26 capital letters to its small one, and leaves every other character alone. */
  lemma LowerFolds(s: string, k: nat)
    requires k < |s|
    ensures |CAPITALS| == |SMALL| == 26
    ensures forall i | 0 <= i < 26 && s[k] == CAPITALS[i] :: Lower(s)[k] == SMALL[i]
    ensures s[k] !in CAPITALS ==> Lower(s)[k] == s[k]
  {
    LetterAt(0);
    forall i: nat | i < 26 && s[k] == CAPITALS[i] ensures Lower(s)[k] == SMALL[i] {
      LetterAt(i);
    }
    if 'A' <= s[k] <= 'Z' {
      LetterAt(s[k] as int - 65);
    }
  }

  /** replace(s, '-', '_') */
  function Underscored(s: string): (r: string)
    ensures |r| == |s|
    ensures forall i :: 0 <= i < |s| ==> r[i] == if s[i] == '-' then '_' else s[i]
  {
    seq(|s|, i requires 0 <= i < |s| => if s[i] == '-' then '_' else s[i])
  }

  // ----- Id blocks and sequences ----------------------------------------------------

  datatype Block = Block(startId: int, endId: int) {
    predicate Contains(id: int) {
      startId <= id <= endId
    }

    function Capacity(): int {
      endId - startId + 1
    }
  }

  /** The row of tenant_id_blocks for an environment, if there is one. */
  function BlockOf(environment: string): Option<Block> {
    if environment == "private-staging" then Some(Block(1, 1000))
    else if environment == "private-prod" then Some(Block(1001, 10000))
    else if environment == "aws-prod" then Some(Block(11000, 20000))
    else if environment == "gcloud-prod" then Some(Block(21000, 30000))
    else if environment == "azure-prod" then Some(Block(31000, 40000))
    else if environment == "private-prod-at" then Some(Block(41000, 50000))
    else None
  }

  /** MINVALUE and MAXVALUE of a sequence the schema creates. */
  function SequenceRange(name: string): Option<Block> {
    if name == "seq_private_staging_tenant_id" then Some(Block(1, 1000))
    else if name == "seq_private_prod_tenant_id" then Some(Block(1001, 10000))
    else if name == "seq_aws_prod_tenant_id" then Some(Block(11000, 20000))
    else if name == "seq_gcloud_prod_tenant_id" then Some(Block(21000, 30000))
    else if name == "seq_azure_prod_tenant_id" then Some(Block(31000, 40000))
    else if name == "seq_private_prod_at_tenant_id" then Some(Block(41000, 50000))
    else None
  }

  /** The name get_next_tenant_id builds for an environment. */
  function SequenceName(environment: string): string {
    "seq_" + Underscored(environment) + "_tenant_id"
  }

  lemma PrivateStagingSequence()
    ensures SequenceName("private-staging") == "seq_private_staging_tenant_id"
  {
    assert Underscored("private-staging") == "private_staging";
    assert "seq_" + "private_staging" + "_tenant_id" == "seq_private_staging_tenant_id";
  }

  lemma PrivateProdSequence()
    ensures SequenceName("private-prod") == "seq_private_prod_tenant_id"
  {
    assert Underscored("private-prod") == "private_prod";
    assert "seq_" + "private_prod" + "_tenant_id" == "seq_private_prod_tenant_id";
  }

  lemma AwsProdSequence()
    ensures SequenceName("aws-prod") == "seq_aws_prod_tenant_id"
  {
    assert Underscored("aws-prod") == "aws_prod";
    assert "seq_" + "aws_prod" + "_tenant_id" == "seq_aws_prod_tenant_id";
  }

  lemma GcloudProdSequence()
    ensures SequenceName("gcloud-prod") == "seq_gcloud_prod_tenant_id"
  {
    assert Underscored("gcloud-prod") == "gcloud_prod";
    assert "seq_" + "gcloud_prod" + "_tenant_id" == "seq_gcloud_prod_tenant_id";
  }

  lemma AzureProdSequence()
    ensures SequenceName("azure-prod") == "seq_azure_prod_tenant_id"
  {
    assert Underscored("azure-prod") == "azure_prod";
    assert "seq_" + "azure_prod" + "_tenant_id" == "seq_azure_prod_tenant_id";
  }

  lemma PrivateProdAtSequence()
    ensures SequenceName("private-prod-at") == "seq_private_prod_at_tenant_id"
  {
    assert Underscored("private-prod-at") == "private_prod_at";
    assert "seq_" + "private_prod_at" + "_tenant_id" == "seq_private_prod_at_tenant_id";
  }

  /** The sequence of a known environment exists and counts through exactly its block. */
  lemma SequenceServesBlock(environment: string)
    requires BlockOf(environment).Some?
    ensures SequenceRange(SequenceName(environment)) == BlockOf(environment)
  {
    if environment == "private-staging" {
      PrivateStagingSequence();
    } else if environment == "private-prod" {
      PrivateProdSequence();
    } else if environment == "aws-prod" {
      AwsProdSequence();
    } else if environment == "gcloud-prod" {
      GcloudProdSequence();
    } else if environment == "azure-prod" {
      AzureProdSequence();
    } else {
      PrivateProdAtSequence();
    }
  }

  lemma BlocksAreDisjoint(e1: string, e2: string, id: int)
    requires BlockOf(e1).Some? && BlockOf(e2).Some?
    requires BlockOf(e1).value.Contains(id) && BlockOf(e2).value.Contains(id)
    ensures e1 == e2
  {
  }

  lemma SequencesAreDisjoint(n1: string, n2: string, id: int)
    requires SequenceRange(n1).Some? && SequenceRange(n2).Some?
    requires SequenceRange(n1).value.Contains(id) && SequenceRange(n2).value.Contains(id)
    ensures n1 == n2
  {
  }

  // ----- Rows -----------------------------------------------------------------------

  datatype Tenant = Tenant(name: string, environment: string)
  datatype Device = Device(name: string, swVersion: string, location: string)
  datatype ApiKey = ApiKey(device: string, active: bool)
  /** A digest: empty text, the SHA-256 of some bytes (taken to be injective), or any other text. */
  datatype Digest = NoDigest | Sha256(preimage: seq<bv8>) | OtherText(text: string)
  datatype Package = Package(version: string, size: int, digest: Digest)
  /** The three text columns of status and of version. */
  datatype Report = Report(software: string, rules: string, threatIntel: string)

  type Time = nat
  datatype Role = SecurityAnalyst | SystemAdmin
  /** A bcrypt digest, idealised: it matches one password. */
  datatype PasswordHash = Bcrypt(password: string)
  datatype User = User(email: string, passwordHash: PasswordHash, role: Role, isActive: bool,
                       failedAttempts: nat, lockoutUntil: Option<Time>)
  /** SHA-256 of an opaque refresh token, taken to be injective. */
  datatype TokenHash = HashOf(raw: string)
  datatype RefreshToken = RefreshToken(user: string, expiresAt: Time, revoked: bool)

  datatype Db = Db(
    tenants: map<int, Tenant>,
    devices: map<string, Owned<Device>>,
    apiKeys: map<string, Owned<ApiKey>>,
    rules: map<int, Owned<Package>>,
    status: map<string, Owned<Report>>,
    versions: map<string, Owned<Report>>,
    users: map<string, Owned<User>>,
    tokens: map<TokenHash, RefreshToken>,
    software: map<int, Package>,
    threatIntel: map<int, Package>,
    sequences: map<string, int>,
    nextRulesId: int,
    nextSoftwareId: int,
    nextThreatIntelId: int)

  const EMPTY_SEQUENCES: map<string, int> := map[
    "seq_private_staging_tenant_id" := 1,
    "seq_private_prod_tenant_id" := 1001,
    "seq_aws_prod_tenant_id" := 11000,
    "seq_gcloud_prod_tenant_id" := 21000,
    "seq_azure_prod_tenant_id" := 31000,
    "seq_private_prod_at_tenant_id" := 41000]

  /** The database right after the schema script. */
  const EMPTY_DB: Db :=
    Db(map[], map[], map[], map[], map[], map[], map[], map[], map[], map[], EMPTY_SEQUENCES, 1, 1, 1)

  // ----- Constraints ----------------------------------------------------------------

  /** The range trigger, the name CHECK and the environment reference of one tenants row. */
  predicate TenantRowOk(id: int, t: Tenant) {
    && BlockOf(t.environment).Some?
    && BlockOf(t.environment).value.Contains(id)
    && 1 <= |t.name| <= MAX_TENANT_NAME_LEN
  }

  ghost predicate TenantsOk(tenants: map<int, Tenant>) {
    && (forall id :: id in tenants ==> TenantRowOk(id, tenants[id]))
    && (forall a, b :: a in tenants && b in tenants && tenants[a].name == tenants[b].name ==> a == b)
  }

  /** UNIQUE(version), and ids drawn from a SERIAL counter. */
  ghost predicate PackagesOk(table: map<int, Package>, next: int) {
    && (forall a, b :: a in table && b in table && table[a].version == table[b].version ==> a == b)
    && (forall a :: a in table ==> a < next)
  }

  /** UNIQUE(version, tenant_id), and ids drawn from a SERIAL counter. */
  ghost predicate RulesOk(table: map<int, Owned<Package>>, next: int) {
    && (forall a, b | a in table && b in table && table[a].tenant == table[b].tenant
          && table[a].row.version == table[b].row.version :: a == b)
    && (forall a :: a in table ==> a < next)
  }

  /** The unique index on LOWER(email). */
  ghost predicate EmailsDistinct(users: map<string, Owned<User>>) {
    forall a, b | a in users && b in users && Lower(users[a].row.email) == Lower(users[b].row.email) :: a == b
  }

  /** A key's device exists (a foreign key), has the key's tenant and has no other key (which the
      schema does not enforce but the program keeps). */
  ghost predicate KeysOk(keys: map<string, Owned<ApiKey>>, devices: map<string, Owned<Device>>) {
    && (forall k :: k in keys ==> keys[k].row.device in devices && keys[k].tenant == devices[keys[k].row.device].tenant)
    && (forall a, b :: a in keys && b in keys && keys[a].row.device == keys[b].row.device ==> a == b)
  }

  /** No two devices of a tenant have the same name, which again only the program keeps. */
  ghost predicate NamesDistinct(devices: map<string, Owned<Device>>) {
    forall a, b | a in devices && b in devices && devices[a].tenant == devices[b].tenant
      && devices[a].row.name == devices[b].row.name :: a == b
  }

  ghost predicate TokensOk(tokens: map<TokenHash, RefreshToken>, users: set<string>) {
    forall h :: h in tokens ==> tokens[h].user in users
  }

  ghost predicate SequencesOk(sequences: map<string, int>) {
    forall n :: n in sequences ==>
      SequenceRange(n).Some? && SequenceRange(n).value.startId <= sequences[n] <= SequenceRange(n).value.endId + 1
  }

  /** Every constraint of the schema, and what the program keeps about device names and keys. */
  ghost predicate Consistent(db: Db) {
    && TenantsOk(db.tenants)
    && OwnersIn(db.devices, db.tenants.Keys)
    && OwnersIn(db.apiKeys, db.tenants.Keys)
    && OwnersIn(db.rules, db.tenants.Keys)
    && OwnersIn(db.status, db.tenants.Keys)
    && OwnersIn(db.versions, db.tenants.Keys)
    && OwnersIn(db.users, db.tenants.Keys)
    && NamesDistinct(db.devices)
    && KeysOk(db.apiKeys, db.devices)
    && TokensOk(db.tokens, db.users.Keys)
    && EmailsDistinct(db.users)
    && RulesOk(db.rules, db.nextRulesId)
    && PackagesOk(db.software, db.nextSoftwareId)
    && PackagesOk(db.threatIntel, db.nextThreatIntelId)
    && SequencesOk(db.sequences)
  }

  /** The tables most operations leave alone. */
  ghost predicate SameAccounts(db: Db, after: Db) {
    after.tenants == db.tenants && after.sequences == db.sequences && after.users == db.users
      && after.tokens == db.tokens
  }

  ghost predicate SameTenants(db: Db, after: Db) {
    after.tenants == db.tenants && after.sequences == db.sequences
  }

  lemma EmptyIsConsistent()
    ensures Consistent(EMPTY_DB)
  {
  }

  /** The keys whose device is still there. */
  function KeysOfDevices(keys: map<string, Owned<ApiKey>>,
      devices: map<string, Owned<Device>>): map<string, Owned<ApiKey>> {
    map k | k in keys && keys[k].row.device in devices :: keys[k]
  }

  /** The refresh tokens whose user is still there. */
  function TokensOfUsers(tokens: map<TokenHash, RefreshToken>,
      users: map<string, Owned<User>>): map<TokenHash, RefreshToken> {
    map h | h in tokens && tokens[h].user in users :: tokens[h]
  }

  /** DELETE FROM tenants WHERE tenant_id = a, with the cascades of every foreign key. */
  function WithoutTenant(db: Db, a: int): Db {
    var devices := Without(db.devices, a);
    var users := Without(db.users, a);
    Db(db.tenants - {a}, devices, KeysOfDevices(Without(db.apiKeys, a), devices),
       Without(db.rules, a), Without(db.status, a), Without(db.versions, a),
       users, TokensOfUsers(db.tokens, users),
       db.software, db.threatIntel, db.sequences, db.nextRulesId, db.nextSoftwareId, db.nextThreatIntelId)
  }

  /** Nothing of a deleted tenant is left in any table, and what is left of keys and refresh tokens leads to devices and
      users that are still there. */
  lemma NothingLeftOfTenant(db: Db, a: int)
    requires Consistent(db)
    ensures var after := WithoutTenant(db, a);
      && a !in after.tenants
      && KeysOf(after.devices, a) == {} && KeysOf(after.apiKeys, a) == {} && KeysOf(after.rules, a) == {}
      && KeysOf(after.status, a) == {} && KeysOf(after.versions, a) == {} && KeysOf(after.users, a) == {}
      && (forall h | h in db.tokens ::
        db.tokens[h].user in db.users && (h in after.tokens <==> db.users[db.tokens[h].user].tenant != a))
      && (forall k | k in db.apiKeys :: k in after.apiKeys <==> db.apiKeys[k].tenant != a)
  {
    hide TenantsOk, OwnersIn, NamesDistinct, EmailsDistinct, RulesOk, PackagesOk, SequencesOk, Without, KeysOf,
      KeysOfDevices, TokensOfUsers, KeysOk, TokensOk;
    NoneLeft(db.devices, a);
    NoneLeft(db.rules, a);
    NoneLeft(db.status, a);
    NoneLeft(db.versions, a);
    NoneLeft(db.users, a);
    KeysLeft(db.apiKeys, db.devices, a);
    TokensLeft(db.tokens, db.users, a);
  }

  lemma NoneLeft<K, T>(table: map<K, Owned<T>>, a: int)
    ensures KeysOf(Without(table, a), a) == {}
  {
  }

  lemma KeysLeft(keys: map<string, Owned<ApiKey>>, devices: map<string, Owned<Device>>, a: int)
    requires KeysOk(keys, devices)
    ensures var after := KeysOfDevices(Without(keys, a), Without(devices, a));
      KeysOf(after, a) == {} && forall k | k in keys :: k in after <==> keys[k].tenant != a
  {
  }

  lemma TokensLeft(tokens: map<TokenHash, RefreshToken>, users: map<string, Owned<User>>, a: int)
    requires TokensOk(tokens, users.Keys)
    ensures forall h | h in tokens ::
      tokens[h].user in users && (h in TokensOfUsers(tokens, Without(users, a)) <==> users[tokens[h].user].tenant != a)
  {
  }

  lemma WithoutOwners<K, T>(table: map<K, Owned<T>>, ids: set<int>, a: int)
    requires OwnersIn(table, ids)
    ensures OwnersIn(Without(table, a), ids - {a})
  {
  }

  lemma WithoutKeys(keys: map<string, Owned<ApiKey>>, devices: map<string, Owned<Device>>, ids: set<int>, a: int)
    requires KeysOk(keys, devices) && OwnersIn(keys, ids)
    ensures KeysOk(KeysOfDevices(Without(keys, a), Without(devices, a)), Without(devices, a))
    ensures OwnersIn(KeysOfDevices(Without(keys, a), Without(devices, a)), ids - {a})
  {
  }

  lemma WithoutNames(devices: map<string, Owned<Device>>, a: int)
    requires NamesDistinct(devices)
    ensures NamesDistinct(Without(devices, a))
  {
  }

  lemma WithoutTenantRow(tenants: map<int, Tenant>, rules: map<int, Owned<Package>>, next: int, a: int)
    requires TenantsOk(tenants) && RulesOk(rules, next)
    ensures TenantsOk(tenants - {a}) && RulesOk(Without(rules, a), next)
  {
  }

  lemma TokensOfUsersOk(tokens: map<TokenHash, RefreshToken>, users: map<string, Owned<User>>)
    ensures TokensOk(TokensOfUsers(tokens, users), users.Keys)
  {
  }

  /** A consistent database stays consistent when a tenant is deleted. */
  lemma WithoutTenantConsistent(db: Db, a: int)
    requires Consistent(db)
    ensures Consistent(WithoutTenant(db, a))
  {
    EmailsDistinctInPart(Without(db.users, a), db.users);
    TokensOfUsersOk(db.tokens, Without(db.users, a));
    var ids := db.tenants.Keys;
    WithoutTenantRow(db.tenants, db.rules, db.nextRulesId, a);
    WithoutKeys(db.apiKeys, db.devices, ids, a);
    WithoutOwners(db.devices, ids, a);
    WithoutNames(db.devices, a);
    WithoutOwners(db.rules, ids, a);
    WithoutOwners(db.status, ids, a);
    WithoutOwners(db.versions, ids, a);
    WithoutOwners(db.users, ids, a);
    assert (db.tenants - {a}).Keys == ids - {a};
  }

  lemma EmailsDistinctInPart(part: map<string, Owned<User>>, whole: map<string, Owned<User>>)
    requires EmailsDistinct(whole)
    requires forall k :: k in part ==> k in whole && part[k].row.email == whole[k].row.email
    ensures EmailsDistinct(part)
  {
  }
}
