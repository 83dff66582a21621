/**
 * Program ids the indexer matches on, as the 32 bytes their base58 names denote.
 */
module ProgramIds {
  import opened Bytes

  /** A 32-byte literal as a key. */
  function Key(bytes: seq<Byte>): Pubkey
    requires |bytes| == 32
  {
    bytes
  }

  /** BGUMAp9Gq7iTEuizy4pqaxsTyUCBK68MDfK752saRPUY (the `mpl_bubblegum` program) */
  const BUBBLEGUM_ID: Pubkey := Key([152, 139, 128, 235, 121, 53, 40, 105, 178, 36, 116, 95, 89, 221, 191, 138, 38, 88, 202, 19, 220, 104, 129, 33, 38, 53, 28, 174, 7, 193, 165, 165])

  /** metaqbxxUerdq28cj1RbAWkYQm3ybzjb6a8bt518x1s (the `mpl_token_metadata` program) */
  const TOKEN_METADATA_ID: Pubkey := Key([11, 112, 101, 177, 227, 209, 124, 69, 56, 157, 82, 127, 107, 4, 195, 205, 88, 184, 108, 115, 26, 160, 253, 181, 73, 182, 209, 188, 3, 248, 41, 70])

  /** TokenkegQfeZyiNwAJbNbGKPFXCWuBvf9Ss623VQ5DA (the `spl_token` program) */
  const TOKEN_PROGRAM_ID: Pubkey := Key([6, 221, 246, 225, 215, 101, 161, 147, 217, 203, 225, 70, 206, 235, 121, 172, 28, 180, 133, 237, 95, 91, 55, 145, 58, 140, 245, 133, 126, 255, 0, 169])

  /** CoREENxT6tW1HoK8ypY1SxRMZTcVPm7R94rH4PZNhX7d (the `mpl_core` program) */
  const MPL_CORE_ID: Pubkey := Key([175, 84, 171, 16, 189, 151, 165, 66, 160, 158, 247, 179, 152, 137, 221, 12, 211, 148, 164, 204, 233, 223, 166, 205, 201, 126, 190, 45, 35, 91, 167, 72])

  /** cmtDvXumGCrqC1Age74AVPhSRVXJMd8PJS91L8KbNCK (the `spl_account_compression` program) */
  const ACCOUNT_COMPRESSION_ID: Pubkey := Key([9, 42, 19, 238, 149, 196, 28, 186, 8, 166, 127, 90, 198, 126, 141, 247, 225, 218, 17, 98, 94, 29, 100, 19, 127, 143, 79, 35, 131, 3, 127, 20])

  /** noopb9bDXy8h9rke3Ry7cs8jtJLAjAxUn9TUHYEfv3y (the `spl_noop` program) */
  const NOOP_ID: Pubkey := Key([11, 188, 15, 192, 187, 67, 219, 180, 153, 231, 113, 198, 49, 51, 147, 158, 178, 122, 10, 29, 9, 190, 50, 8, 152, 189, 202, 255, 177, 114, 200, 192])

  /** HivezrprVqHR6APKKQkkLHmUG8waZorXexEBRZWh5LRm (the `hpl_hive_control` program) */
  const HIVE_CONTROL_ID: Pubkey := Key([248, 120, 120, 215, 210, 190, 156, 219, 144, 68, 32, 164, 128, 80, 97, 189, 25, 236, 40, 16, 182, 238, 228, 73, 233, 214, 149, 55, 162, 47, 73, 136])

  /** ChRCtrG7X5kb9YncA4wuyD68DXXL8Szt3zBCCGiioBTg (the `hpl_character_manager` program) */
  const CHARACTER_MANAGER_ID: Pubkey := Key([173, 203, 40, 69, 131, 191, 201, 134, 193, 67, 21, 45, 104, 240, 245, 250, 233, 39, 81, 62, 106, 2, 132, 70, 81, 192, 57, 172, 198, 49, 111, 19])

  /** CrncyaGmZfWvpxRcpHEkSrqeeyQsdn4MAedo9KuARAc4 (the `hpl_currency_manager` program) */
  const CURRENCY_MANAGER_ID: Pubkey := Key([176, 49, 153, 77, 36, 225, 101, 104, 86, 201, 51, 70, 167, 60, 195, 211, 230, 89, 149, 250, 142, 131, 239, 25, 106, 148, 10, 92, 107, 255, 130, 133])

  /** RSCR7UoY65mDMK8z2eCBvFmj4HSepGEY9ZjdCTiUDUA (the `hpl_resource_manager` program) */
  const RESOURCE_MANAGER_ID: Pubkey := Key([6, 66, 109, 247, 99, 148, 186, 88, 75, 100, 34, 186, 127, 29, 229, 129, 199, 47, 209, 242, 151, 67, 130, 87, 0, 245, 23, 8, 204, 187, 224, 159])

  /** MiNESdRXUSmWY7NkAKdW9nMkjJZCaucguY3MDvkSmr6 (the `hpl_nectar_staking` program) */
  const NECTAR_STAKING_ID: Pubkey := Key([5, 78, 99, 145, 147, 24, 127, 22, 29, 125, 93, 174, 114, 46, 223, 136, 228, 243, 74, 249, 71, 133, 190, 141, 13, 62, 143, 19, 66, 94, 228, 7])

  /** HuntaX1CmUt5EByyFPE8pMf13SpvezybmMTtjmpmGmfj (the `hpl_nectar_missions` program) */
  const NECTAR_MISSIONS_ID: Pubkey := Key([251, 65, 20, 126, 223, 110, 102, 29, 54, 164, 80, 198, 162, 5, 214, 114, 102, 104, 125, 253, 197, 61, 122, 102, 62, 116, 253, 10, 147, 127, 29, 110])

  /** EtXbhgWbWEWamyoNbSRyN5qFXjFbw8utJDHvBkQKXLSL */
  const INDEXABLE_ETXB: Pubkey := Key([206, 91, 38, 31, 50, 77, 155, 142, 90, 142, 230, 159, 174, 69, 46, 76, 222, 113, 63, 167, 47, 49, 187, 100, 177, 91, 75, 198, 209, 229, 31, 89])

  /** Pay9ZxrVRXjt9Da8qpwqq4yBRvvrfx3STWnKK4FstPr */
  const INDEXABLE_PAY9: Pubkey := Key([5, 201, 47, 132, 75, 120, 33, 7, 37, 182, 240, 137, 150, 13, 27, 81, 23, 85, 189, 218, 138, 171, 232, 170, 6, 163, 62, 236, 168, 245, 115, 105])

  /** 8fTwUdyGfDAcmdu8X4uWb2vBHzseKGXnxZUpZ2D94iit */
  const INDEXABLE_8FTW: Pubkey := Key([113, 220, 86, 235, 221, 233, 12, 143, 68, 228, 117, 38, 222, 65, 71, 119, 76, 49, 156, 37, 102, 88, 13, 18, 156, 120, 169, 205, 50, 171, 73, 249])

  /** 6ARwjKsMY2P3eLEWhdoU5czNezw3Qg6jEfbmLTVQqrPQ */
  const INDEXABLE_6ARW: Pubkey := Key([76, 180, 221, 161, 208, 73, 103, 81, 13, 55, 34, 27, 46, 138, 204, 149, 148, 73, 155, 54, 107, 89, 148, 44, 219, 212, 194, 87, 152, 190, 164, 103])

}
