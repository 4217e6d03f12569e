/**
  One run of the program (`main`): resolve the window, fetch the prices,
  scale the cores. The clock reading and the look-back offset are already
  applied: the run receives the two instants of the window.
*/
module Pipeline {
  import opened Decimal
  import opened TimeRange
  import opened Market
  import opened Scaler

  /**
    The whole run: the calls made to the market service are those the window
    calls for, and the control files receive the target chosen from the
    fetched series and the capability file, on every core but the last.
  */
  method RunOnce(fs: SysFs, client: MarketClient, before: CivilTime, now: CivilTime, numCPU: int)
    modifies fs, client
    ensures var times := GetTimeRange(before, now);
      var prices := FetchedPrices(times, client.respond);
      var ws := PlannedWrites(numCPU, Itoa(TargetFrequency(prices, old(DiscoveredRange(fs)))));
      && client.posts == old(client.posts) + SentAll(IssuedRequests(times, client.respond))
      && fs.attempts == old(fs.attempts) + ws
      && fs.files == ApplyWrites(old(fs.files), fs.failing, ws)
  {
    var times := GetTimeRange(before, now);
    var prices := GetElectricityPrices(client, times);
    ScaleCPUFrequency(fs, prices, numCPU);
  }
}
