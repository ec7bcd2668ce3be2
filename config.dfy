/** The worker's compiled-in configuration. */
module Config {

  /** The version tag naming the current cache region. */
  const CACHE_NAME: string := "saram-v1"

  /** The application shell, cached on install. */
  const STATIC_ASSETS: seq<string> := [
    "/",
    "/index.html",
    "/styles.css",
    "/app.js",
    "/manifest.json",
    "/offline.html"
  ]

  /** The page served to navigations that can reach neither cache nor network. */
  const OFFLINE_PAGE: string := "/offline.html"

  /** The one background-sync tag the worker names. */
  const SYNC_LIKES: string := "sync-likes"
}
