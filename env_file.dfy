/** The generated `.env` file. */
module EnvFile {

  /** The placeholder written for the deployment key, for the user to replace. */
  const DeployKeyLine: string := "DEPLOY_KEY=\"a base64 of your arweave wallet key\""

  /** The lines of `.env`: a comment naming the project, then one line per variable. */
  function EnvLineList(projectName: string, domain: string, nftContractAddress: string, rpcEndpoint: string): (ls: seq<string>)
    ensures |ls| == 5 && ls[4] == DeployKeyLine
    ensures |ls[1]| >= 10 && ls[1][..10] == "ARNS_NAME=" && ls[1][10..] == domain
    ensures |ls[2]| >= 21 && ls[2][..21] == "NFT_CONTRACT_ADDRESS=" && ls[2][21..] == nftContractAddress
    ensures |ls[3]| >= 13 && ls[3][..13] == "RPC_ENDPOINT=" && ls[3][13..] == rpcEndpoint
  {
    [ "# Environment variables for " + projectName,
      "ARNS_NAME=" + domain,
      "NFT_CONTRACT_ADDRESS=" + nftContractAddress,
      "RPC_ENDPOINT=" + rpcEndpoint,
      DeployKeyLine ]
  }

  /** Text made of the given lines, each ended by a newline. */
  function JoinLines(ls: seq<string>): (s: string)
    ensures ls != [] ==> |s| > 0 && s[|s| - 1] == '\n'
  {
    if ls == [] then "" else ls[0] + "\n" + JoinLines(ls[1..])
  }

  /** The text of `.env`, as the template literal builds it. */
  function EnvContent(projectName: string, domain: string, nftContractAddress: string, rpcEndpoint: string): (s: string)
    ensures |s| > 0 && s[|s| - 1] == '\n'
  {
    JoinLines(EnvLineList(projectName, domain, nftContractAddress, rpcEndpoint))
  }

  /** Splits text at every newline; the piece after the last newline (empty for text ending in one) comes last. */
  function Lines(s: string): (ls: seq<string>)
    ensures |ls| >= 1
  {
    if s == [] then [""]
    else if s[0] == '\n' then [""] + Lines(s[1..])
    else var rest := Lines(s[1..]); [[s[0]] + rest[0]] + rest[1..]
  }

  /** A line without a newline followed by a newline is one line of the split. */
  lemma {:induction false} LinesCons(line: string, s: string)
    requires '\n' !in line
    ensures Lines(line + "\n" + s) == [line] + Lines(s)
  {
    if line == [] {
      assert line + "\n" + s == "\n" + s;
    } else {
      assert (line + "\n" + s)[1..] == line[1..] + "\n" + s;
      LinesCons(line[1..], s);
      assert [line[0]] + line[1..] == line;
    }
  }

  /** Splitting joined lines gives the lines back, followed by the empty remainder after the final newline. */
  lemma {:induction false} LinesOfJoin(ls: seq<string>)
    requires forall i :: 0 <= i < |ls| ==> '\n' !in ls[i]
    ensures Lines(JoinLines(ls)) == ls + [""]
  {
    if ls != [] {
      LinesOfJoin(ls[1..]);
      LinesCons(ls[0], JoinLines(ls[1..]));
      assert ls == [ls[0]] + ls[1..];
    }
  }

  /**
   * Read back line by line, `.env` holds the header comment, then
   * `ARNS_NAME`, `NFT_CONTRACT_ADDRESS`, `RPC_ENDPOINT` and the `DEPLOY_KEY`
   * placeholder, in that order, each carrying exactly the answer given, as
   * long as no answer itself contains a newline.
   */
  lemma EnvLines(projectName: string, domain: string, nftContractAddress: string, rpcEndpoint: string)
    requires '\n' !in projectName && '\n' !in domain
    requires '\n' !in nftContractAddress && '\n' !in rpcEndpoint
    ensures Lines(EnvContent(projectName, domain, nftContractAddress, rpcEndpoint)) == [
      "# Environment variables for " + projectName,
      "ARNS_NAME=" + domain,
      "NFT_CONTRACT_ADDRESS=" + nftContractAddress,
      "RPC_ENDPOINT=" + rpcEndpoint,
      DeployKeyLine,
      ""]
  {
    var ls := EnvLineList(projectName, domain, nftContractAddress, rpcEndpoint);
    assert '\n' !in "# Environment variables for " && '\n' !in "ARNS_NAME=";
    assert '\n' !in "NFT_CONTRACT_ADDRESS=" && '\n' !in "RPC_ENDPOINT=";
    DeployKeyLineIsOneLine();
    LinesOfJoin(ls);
  }

  /** The placeholder line holds no newline. */
  lemma DeployKeyLineIsOneLine()
    ensures '\n' !in DeployKeyLine
  {
    assert DeployKeyLine == "DEPLOY_KEY=" + "\"a base64" + " of your " + "arweave " + "wallet " + "key\"";
    assert '\n' !in "DEPLOY_KEY=";
    assert '\n' !in "\"a base64";
    assert '\n' !in " of your ";
    assert '\n' !in "arweave ";
    assert '\n' !in "wallet ";
    assert '\n' !in "key\"";
  }
}
