/**
  core/twitter.py: the registry of authenticated Twitter clients, the choice of the active
  client, and the shaping of a tweet (length cap, media cap, with-media or text-only status).
  The network calls (credential check, media upload, status update) are oracle parameters.
 */
module Twitter {

  import opened Wrappers
  import opened Seqs

  const MaxTweetLength := 280
  const TruncatedPrefixLength := 277
  const Ellipsis := "..."
  const MaxMediaPerTweet := 4

  /** A `tweepy.API` object: compared by identity, as in the source. */
  class ApiClient {
    const apiKey: string
    const apiSecret: string
    const accessToken: string
    const accessSecret: string

    constructor (apiKey: string, apiSecret: string, accessToken: string, accessSecret: string)
      ensures this.apiKey == apiKey && this.apiSecret == apiSecret
      ensures this.accessToken == accessToken && this.accessSecret == accessSecret
    {
      this.apiKey := apiKey;
      this.apiSecret := apiSecret;
      this.accessToken := accessToken;
      this.accessSecret := accessSecret;
    }
  }

  /** The `update_status` call that is made: with a list of media ids, or text only. */
  datatype StatusUpdate = TextOnly(status: string) | WithMedia(status: string, mediaIds: seq<int>)

  /** `text[:277] + "..."` when the text is longer than 280 characters, the text itself otherwise. */
  function ShapeText(text: string): (r: string)
    ensures |r| <= MaxTweetLength
    ensures |text| <= MaxTweetLength ==> r == text
    ensures |text| > MaxTweetLength ==>
      |r| == MaxTweetLength && r[..TruncatedPrefixLength] == text[..TruncatedPrefixLength] && r[TruncatedPrefixLength..] == Ellipsis
  {
    if |text| > MaxTweetLength then text[..TruncatedPrefixLength] + Ellipsis else text
  }

  /** The media ids of uploading `paths` in order, or None when some upload fails. */
  function UploadAll(paths: seq<string>, upload: string -> Option<int>): (r: Option<seq<int>>)
    ensures r.Some? ==> |r.value| == |paths| && forall i :: 0 <= i < |paths| ==> upload(paths[i]) == Some(r.value[i])
    ensures r.None? ==> exists i :: 0 <= i < |paths| && upload(paths[i]).None?
    decreases |paths|
  {
    if |paths| == 0 then Some([])
    else
      var head := upload(paths[|paths| - 1]);
      var init := UploadAll(paths[..|paths| - 1], upload);
      if init.None? || head.None? then None else Some(init.value + [head.value])
  }

  /** The status posted for the shaped text and the media ids: with media iff there is at least one id. */
  function StatusFor(text: string, mediaIds: seq<int>): StatusUpdate
  {
    if |mediaIds| > 0 then WithMedia(text, mediaIds) else TextOnly(text)
  }

  /** A saved account as `_load_accounts` reads it: username, api key and secret, access token and secret. */
  type Credentials = (string, string, string, string, string)

  /** The client was built from the account's four credentials. */
  predicate Holds(c: ApiClient, account: Credentials)
  {
    c.apiKey == account.1 && c.apiSecret == account.2 && c.accessToken == account.3 && c.accessSecret == account.4
  }

  /** No account after position `j` and before `n` reuses the username at `j`. */
  predicate LastWithName(accounts: seq<Credentials>, j: int, n: int)
    requires 0 <= j < n <= |accounts|
  {
    forall l :: j < l < n ==> accounts[l].0 != accounts[j].0
  }

  /** The usernames of the first `n` accounts. */
  function Names(accounts: seq<Credentials>, n: int): set<string>
    requires 0 <= n <= |accounts|
    decreases n
  {
    if n == 0 then {} else Names(accounts, n - 1) + {accounts[n - 1].0}
  }

  /** `Names` is the set of usernames of the first `n` accounts. */
  lemma {:induction false} NamesAreUsernames(accounts: seq<Credentials>, n: int)
    requires 0 <= n <= |accounts|
    ensures Names(accounts, n) == set j | 0 <= j < n :: accounts[j].0
    decreases n
  {
    if n > 0 {
      NamesAreUsernames(accounts, n - 1);
      assert (set j | 0 <= j < n :: accounts[j].0) == (set j | 0 <= j < n - 1 :: accounts[j].0) + {accounts[n - 1].0};
    }
  }

  /**
    The registry after adding the first `n` accounts to `before`: their usernames are added,
    each holds the client of the last of those accounts with its name, and every other name
    keeps its client.
   */
  predicate LoadedUpTo(accounts: seq<Credentials>, n: int, before: map<string, ApiClient>, after: map<string, ApiClient>)
    requires 0 <= n <= |accounts|
  {
    && after.Keys == before.Keys + Names(accounts, n)
    && (forall j :: 0 <= j < n && LastWithName(accounts, j, n) ==> accounts[j].0 in after && Holds(after[accounts[j].0], accounts[j]))
    && (forall u :: u in before && u !in Names(accounts, n) ==> after[u] == before[u])
  }

  /** Registering the client of account `i` extends a load of the first `i` accounts by one. */
  lemma LoadOneMore(accounts: seq<Credentials>, i: int, start: map<string, ApiClient>,
                    before: map<string, ApiClient>, c: ApiClient)
    requires 0 <= i < |accounts| && LoadedUpTo(accounts, i, start, before) && Holds(c, accounts[i])
    ensures LoadedUpTo(accounts, i + 1, start, before[accounts[i].0 := c])
  {
  }

  class TwitterManager {
    var clients: map<string, ApiClient>
    var activeClient: ApiClient?

    constructor ()
      ensures clients == map[] && activeClient == null
    {
      clients := map[];
      activeClient := null;
    }

    /**
      add_client: the client is registered under `username` only when its credentials
      verify; otherwise the registry is unchanged and the error is raised to the caller.
     */
    method AddClient(username: string, apiKey: string, apiSecret: string, accessToken: string,
                     accessSecret: string, credentialsVerify: bool)
      returns (r: Result<ApiClient, string>)
      modifies this
      ensures activeClient == old(activeClient)
      ensures credentialsVerify ==> r.Success? && fresh(r.value) && clients == old(clients)[username := r.value]
      ensures credentialsVerify ==> r.value.apiKey == apiKey && r.value.apiSecret == apiSecret
      ensures credentialsVerify ==> r.value.accessToken == accessToken && r.value.accessSecret == accessSecret
      ensures !credentialsVerify ==> r.Failure? && clients == old(clients)
    {
      var api := new ApiClient(apiKey, apiSecret, accessToken, accessSecret);
      if !credentialsVerify {
        return Failure("credentials could not be verified");
      }
      clients := clients[username := api];
      r := Success(api);
    }

    /**
      _load_accounts: adds every saved account in order; the first failure stops the load
      and is raised, leaving the accounts added before it registered.
     */
    method LoadAccounts(accounts: seq<Credentials>, verifies: Credentials -> bool)
      returns (r: Result<(), string>)
      modifies this
      ensures activeClient == old(activeClient)
      ensures r.Success? <==> forall i :: 0 <= i < |accounts| ==> verifies(accounts[i])
      ensures r.Success? ==> LoadedUpTo(accounts, |accounts|, old(clients), clients)
      ensures r.Failure? ==>
        exists k :: 0 <= k < |accounts| && !verifies(accounts[k])
                    && (forall j :: 0 <= j < k ==> verifies(accounts[j]))
                    && LoadedUpTo(accounts, k, old(clients), clients)
    {
      var i := 0;
      while i < |accounts|
        invariant 0 <= i <= |accounts|
        invariant activeClient == old(activeClient)
        invariant LoadedUpTo(accounts, i, old(clients), clients)
        invariant forall j :: 0 <= j < i ==> verifies(accounts[j])
      {
        var account := accounts[i];
        ghost var before := clients;
        var added := AddClient(account.0, account.1, account.2, account.3, account.4, verifies(account));
        if added.Failure? {
          assert clients == before;
          assert 0 <= i < |accounts| && !verifies(accounts[i]) && (forall j :: 0 <= j < i ==> verifies(accounts[j]))
                 && LoadedUpTo(accounts, i, old(clients), clients);
          return Failure(added.error);
        }
        LoadOneMore(accounts, i, old(clients), before, added.value);
        i := i + 1;
      }
      r := Success(());
    }

    /**
      set_active_client: True and the client becomes active iff `username` is registered;
      otherwise False and the active client is unchanged.
     */
    method SetActiveClient(username: string) returns (ok: bool)
      modifies this`activeClient
      ensures ok <==> username in clients
      ensures ok ==> activeClient == clients[username]
      ensures !ok ==> activeClient == old(activeClient)
    {
      if username in clients {
        activeClient := clients[username];
        return true;
      }
      return false;
    }

    /**
      send_tweet: raises when no client is active. Otherwise the text is shaped, at most the
      first four media paths are uploaded in order, and the status is posted with media iff
      some id was obtained; any upload or post failure yields False. `sent` is the status
      update call that was made, if any.
     */
    method SendTweet(text: string, mediaPaths: seq<string>, upload: string -> Option<int>, post: StatusUpdate -> bool)
      returns (r: Result<bool, string>, sent: Option<StatusUpdate>)
      ensures activeClient == null ==> r.Failure? && sent.None?
      ensures activeClient != null ==> r.Success?
      ensures activeClient != null ==>
        var ids := UploadAll(Take(mediaPaths, MaxMediaPerTweet), upload);
        if ids.None? then r == Success(false) && sent.None?
        else sent == Some(StatusFor(ShapeText(text), ids.value)) && r == Success(post(sent.value))
    {
      if activeClient == null {
        return Failure("no active client"), None;
      }
      var status := text;
      if |status| > MaxTweetLength {
        status := status[..TruncatedPrefixLength] + Ellipsis;
      }
      var toUpload := Take(mediaPaths, MaxMediaPerTweet);
      var mediaIds: seq<int> := [];
      var i := 0;
      while i < |toUpload|
        invariant 0 <= i <= |toUpload|
        invariant UploadAll(toUpload[..i], upload) == Some(mediaIds)
      {
        assert toUpload[..i + 1][..i] == toUpload[..i];
        var media := upload(toUpload[i]);
        if media.None? {
          UploadStopsAtFailure(toUpload, i, upload);
          return Success(false), None;
        }
        mediaIds := mediaIds + [media.value];
        i := i + 1;
      }
      assert toUpload[..i] == toUpload;
      var update := if |mediaIds| > 0 then WithMedia(status, mediaIds) else TextOnly(status);
      return Success(post(update)), Some(update);
    }

    /**
      remove_client: deletes only `username`'s entry, and clears the active client iff it is
      that very client object; nothing changes for an unknown name.
     */
    method RemoveClient(username: string)
      modifies this
      ensures clients == old(clients) - {username}
      ensures username in old(clients) && old(activeClient) == old(clients)[username] ==> activeClient == null
      ensures !(username in old(clients) && old(activeClient) == old(clients)[username]) ==> activeClient == old(activeClient)
    {
      if username in clients {
        if activeClient == clients[username] {
          activeClient := null;
        }
        clients := clients - {username};
      }
    }
  }

  /** One failed upload makes the whole upload fail, whatever comes after it. */
  lemma {:induction false} UploadStopsAtFailure(paths: seq<string>, i: nat, upload: string -> Option<int>)
    requires i < |paths| && upload(paths[i]).None?
    ensures UploadAll(paths, upload).None?
    decreases |paths|
  {
    if i < |paths| - 1 {
      assert paths[..|paths| - 1][i] == paths[i];
      UploadStopsAtFailure(paths[..|paths| - 1], i, upload);
    }
  }

  /** At most four media ids reach a status, in the order of the paths, extras ignored. */
  lemma MediaCap(mediaPaths: seq<string>, upload: string -> Option<int>)
    ensures var ids := UploadAll(Take(mediaPaths, MaxMediaPerTweet), upload);
            ids.Some? ==> (|ids.value| <= MaxMediaPerTweet &&
                           forall i :: 0 <= i < |ids.value| ==> upload(mediaPaths[i]) == Some(ids.value[i]))
  {
  }
}
